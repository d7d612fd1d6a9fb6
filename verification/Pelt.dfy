/**
 The constants of the load-tracking scheduler: fixed-point iterations that the generator runs to
 convergence, against their closed forms and against the real recurrences they stand for.  The decay
 factor `y` is a real parameter; the integer arithmetic is the program's.
 */
module Pelt {
  import opened Prelude

  const SCALE := 0x1_0000_0000
  const HALFLIFE := 32
  const INT64_LIMIT := 0x8000_0000_0000_0000

  // ---------------------------------------------------------------- arithmetic

  lemma DivBound(a: int, b: int, q: int)
    requires b > 0
    ensures a / b >= q <==> a >= q * b
  {
    assert (a / b) * b <= a < (a / b + 1) * b;
    if a / b >= q {
      assert (a / b) * b >= q * b;
    } else {
      assert (a / b + 1) * b <= q * b;
    }
  }

  lemma MulMono(a: nat, b: int, c: int)
    requires b <= c
    ensures a * b <= a * c
  {}

  lemma RealMulMono(a: real, b: real, c: real)
    requires a >= 0.0 && b <= c
    ensures a * b <= a * c
  {}

  lemma RealOfProduct(a: int, b: int)
    ensures (a * b) as real == a as real * b as real
  {}

  // ---------------------------------------------------------------- the converged maximum

  /** One period of decay and a full contribution, in fixed point. */
  function Decay(m: nat, yInv: nat): nat {
    m * yInv / SCALE + 1024
  }

  function Iterate(yInv: nat, k: nat): nat {
    if k == 0 then 1024 else Decay(Iterate(yInv, k - 1), yInv)
  }

  /** Where the iteration ends. */
  function Limit(yInv: nat): nat
    requires yInv < SCALE
  {
    1023 * SCALE / (SCALE - yInv) + 1
  }

  /** The iteration climbs exactly below the limit. */
  lemma ClimbsBelowLimit(m: nat, yInv: nat)
    requires yInv < SCALE
    ensures Decay(m, yInv) > m <==> m < Limit(yInv)
  {
    DivBound(m * yInv, SCALE, m - 1023);
    DivBound(1023 * SCALE, SCALE - yInv, m);
    assert m * yInv >= (m - 1023) * SCALE <==> 1023 * SCALE >= m * (SCALE - yInv);
  }

  lemma DecayMono(m: nat, m': nat, yInv: nat)
    requires m <= m'
    ensures Decay(m, yInv) <= Decay(m', yInv)
  {
    assert m * yInv <= m' * yInv by { MulMono(yInv, m, m'); }
    DivBound(m' * yInv, SCALE, m * yInv / SCALE);
    DivBound(m * yInv, SCALE, m * yInv / SCALE);
  }

  /** The limit is the least fixed point of the iteration. */
  lemma LeastFixedPoint(yInv: nat)
    requires yInv < SCALE
    ensures Decay(Limit(yInv), yInv) == Limit(yInv)
    ensures forall m: nat :: Decay(m, yInv) == m ==> m >= Limit(yInv)
  {
    var m := Limit(yInv);
    DivBound(1023 * SCALE, SCALE - yInv, 0);
    ClimbsBelowLimit(m, yInv);
    ClimbsBelowLimit(m - 1, yInv);
    DecayMono(m - 1, m, yInv);
    forall m: nat | Decay(m, yInv) == m
      ensures m >= Limit(yInv)
    {
      ClimbsBelowLimit(m, yInv);
    }
  }

  /** No iterate passes the limit, and each short of it is below the next. */
  lemma {:induction false} IteratesClimb(yInv: nat, k: nat)
    requires yInv < SCALE
    ensures 1024 <= Iterate(yInv, k) <= Limit(yInv)
    ensures Iterate(yInv, k) == Limit(yInv) || 1024 + k <= Iterate(yInv, k)
    ensures if Iterate(yInv, k) == Limit(yInv) then Iterate(yInv, k + 1) == Limit(yInv)
            else Iterate(yInv, k) < Iterate(yInv, k + 1)
  {
    if k == 0 {
      DivBound(1023 * SCALE, SCALE - yInv, 1023);
    } else {
      IteratesClimb(yInv, k - 1);
      DecayMono(Iterate(yInv, k - 1), Limit(yInv), yInv);
    }
    LeastFixedPoint(yInv);
    ClimbsBelowLimit(Iterate(yInv, k), yInv);
  }

  /** Every iterate from some point on is the limit. */
  lemma LimitReached(yInv: nat)
    requires yInv < SCALE
    ensures Iterate(yInv, Limit(yInv)) == Limit(yInv)
  {
    IteratesClimb(yInv, Limit(yInv));
  }

  lemma LimitMono(a: nat, b: nat)
    requires a <= b < SCALE
    ensures Limit(a) <= Limit(b)
  {
    var q := 1023 * SCALE / (SCALE - a);
    DivBound(1023 * SCALE, SCALE - a, 0);
    DivBound(1023 * SCALE, SCALE - a, q);
    MulMono(q, SCALE - b, SCALE - a);
    DivBound(1023 * SCALE, SCALE - b, q);
  }

  /** No product of the iteration leaves a signed 64-bit word exactly when 2^32 - yInv is at least 2046. */
  lemma ProductsFit(yInv: nat)
    requires yInv < SCALE
    ensures (forall k: nat :: Iterate(yInv, k) * yInv < INT64_LIMIT) <==> SCALE - yInv >= 2046
  {
    if SCALE - yInv >= 2046 {
      LimitMono(yInv, SCALE - 2046);
      forall k: nat
        ensures Iterate(yInv, k) * yInv < INT64_LIMIT
      {
        IteratesClimb(yInv, k);
        MulMono(yInv, Iterate(yInv, k), Limit(SCALE - 2046));
        MulMono(Limit(SCALE - 2046), yInv, SCALE - 2046);
      }
    } else {
      LimitMono(SCALE - 2045, yInv);
      LimitReached(yInv);
      MulMono(yInv, Limit(SCALE - 2045), Limit(yInv));
      MulMono(Limit(SCALE - 2045), SCALE - 2045, yInv);
      assert Iterate(yInv, Limit(yInv)) * yInv >= INT64_LIMIT;
    }
  }

  // ---------------------------------------------------------------- geometric sums

  ghost function Power(y: real, k: nat): real {
    if k == 0 then 1.0 else y * Power(y, k - 1)
  }

  /** y + y^2 + ... + y^k, by Horner's rule. */
  ghost function Geometric(y: real, k: nat): real {
    if k == 0 then 0.0 else y + y * Geometric(y, k - 1)
  }

  /** It is the sum of the powers. */
  lemma {:induction false} GeometricPowers(y: real, k: nat)
    ensures Geometric(y, k + 1) == Geometric(y, k) + Power(y, k + 1)
  {
    if k == 0 {
      assert Geometric(y, 1) == y + y * Geometric(y, 0);
    } else {
      GeometricPowers(y, k - 1);
      assert Geometric(y, k + 1) == y + y * Geometric(y, k);
      assert Power(y, k + 1) == y * Power(y, k);
    }
  }

  lemma {:induction false} GeometricScaled(y: real, k: nat)
    ensures (1.0 - y) * Geometric(y, k) == y - Power(y, k + 1)
  {
    if k > 0 {
      GeometricScaled(y, k - 1);
      assert Power(y, k + 1) == y * Power(y, k);
    }
  }

  lemma {:induction false} PowerSign(y: real, k: nat)
    requires y >= 0.0
    ensures Power(y, k) >= 0.0
  {
    if k > 0 {
      PowerSign(y, k - 1);
      RealMulMono(y, 0.0, Power(y, k - 1));
    }
  }

  lemma DivideBound(e: real, d: real, c: real)
    requires d > 0.0
    ensures e * d <= c ==> e <= c / d
    ensures c <= e * d ==> c / d <= e
  {
    var q := c / d;
    assert q * d == c;
    if q < e {
      assert (e - q) * d > 0.0;
    } else if e < q {
      assert (q - e) * d > 0.0;
    }
  }

  /** 1 + y + ... + y^k is (1 - y^(k+1)) / (1 - y), and so at most 1 / (1 - y). */
  lemma GeometricClosed(y: real, k: nat)
    requires 0.0 <= y < 1.0
    ensures 1.0 + Geometric(y, k) == (1.0 - Power(y, k + 1)) / (1.0 - y) <= 1.0 / (1.0 - y)
  {
    var h, p := Geometric(y, k), Power(y, k + 1);
    GeometricScaled(y, k);
    PowerSign(y, k + 1);
    var e := 1.0 + h;
    assert e * (1.0 - y) == 1.0 - p;
    DivideBound(e, 1.0 - y, 1.0 - p);
    DivideBound(e, 1.0 - y, 1.0);
  }

  // ---------------------------------------------------------------- against the real recurrence

  /** `yInv` is (2^32 - 1) * y without its fraction. */
  predicate Rounds(yInv: nat, y: real) {
    yInv < SCALE && yInv as real <= (SCALE - 1) as real * y < yInv as real + 1.0
  }

  /** The decay factor in fixed point, as the conversion to an integer truncates it. */
  function YInv(y: real): (r: nat)
    requires 0.0 <= y <= 1.0
    ensures Rounds(r, y)
  {
    ((SCALE - 1) as real * y).Floor
  }

  /** max = max * y + 1024, without rounding. */
  ghost function Exact(y: real, k: nat): real {
    if k == 0 then 1024.0 else Exact(y, k - 1) * y + 1024.0
  }

  /** `v` is m * yInv and `w` is m * y. */
  lemma RoundedProduct(m: nat, w: real, v: nat)
    requires v as real <= (SCALE - 1) as real * w <= v as real + m as real
    requires 0.0 <= w <= m as real
    ensures (v / SCALE) as real <= w
    ensures m <= 0x8000_0000 ==> w <= (v / SCALE) as real + 2.0
  {
    var q := v / SCALE;
    assert q * SCALE <= v < (q + 1) * SCALE;
  }

  lemma TruncatedFactor(a: real, z: real, yInv: real, x: real, v: real)
    requires a >= 0.0 && yInv <= z < yInv + 1.0 && x == a * z && v == a * yInv
    ensures v <= x <= v + a
  {
    var rest := yInv + 1.0 - z;
    RealMulMono(a, yInv, z);
    RealMulMono(a, 0.0, rest);
    assert a * rest == v + a - x;
  }

  lemma ProductBounds(a: real, y: real, yInv: real, w: real, v: real)
    requires a >= 0.0 && 0.0 <= y <= 1.0 && yInv <= (SCALE - 1) as real * y < yInv + 1.0
    requires w == a * y && v == a * yInv
    ensures 0.0 <= w <= a
    ensures v <= (SCALE - 1) as real * w <= v + a
  {
    RealMulMono(a, 0.0, y);
    RealMulMono(a, y, 1.0);
    TruncatedFactor(a, (SCALE - 1) as real * y, yInv, (SCALE - 1) as real * w, v);
  }

  /** A rounded step is at most the real step, and within 2^31 at most two below it. */
  lemma DecayTracks(m: nat, y: real, yInv: nat, w: real, m': nat)
    requires 0.0 <= y <= 1.0 && Rounds(yInv, y) && w == m as real * y && m' == Decay(m, yInv)
    ensures m' as real <= w + 1024.0
    ensures m <= 0x8000_0000 ==> w + 1022.0 <= m' as real
  {
    var v := m * yInv;
    RealOfProduct(m, yInv);
    ProductBounds(m as real, y, yInv as real, w, v as real);
    RoundedProduct(m, w, v);
  }

  lemma TrackStep(m: nat, r: real, y: real, yInv: nat, m': nat, r': real, h: real, h': real)
    requires 0.0 <= y <= 1.0 && Rounds(yInv, y) && m <= 0x8000_0000
    requires m' == Decay(m, yInv) && r' == r * y + 1024.0 && h' == y + y * h
    requires 0.0 <= r - m as real <= 2.0 * (1.0 + h)
    ensures 0.0 <= r' - m' as real <= 2.0 * (1.0 + h')
  {
    var w := m as real * y;
    DecayTracks(m, y, yInv, w, m');
    var e := r - m as real;
    RealMulMono(y, 0.0, e);
    var bound := 2.0 * (1.0 + h);
    RealMulMono(y, e, bound);
    assert y * e == r * y - w;
    assert y * bound == 2.0 * h';
  }

  lemma IteratesGrow(yInv: nat, k: nat)
    requires yInv < SCALE
    ensures Iterate(yInv, k) <= Iterate(yInv, k + 1)
  {
    IteratesClimb(yInv, k);
  }

  lemma {:induction false} IteratesSorted(yInv: nat, j: nat, k: nat)
    requires yInv < SCALE && j <= k
    ensures Iterate(yInv, j) <= Iterate(yInv, k)
  {
    if j < k {
      IteratesSorted(yInv, j, k - 1);
      IteratesGrow(yInv, k - 1);
    }
  }

  lemma FirstTracks(y: real, yInv: nat)
    requires 0.0 <= y <= 1.0 && Rounds(yInv, y)
    ensures Tracks(y, yInv, 1)
  {
    assert Exact(y, 1) == 1024.0 * y + 1024.0;
    DecayTracks(1024, y, yInv, 1024.0 * y, Decay(1024, yInv));
  }

  lemma TrackNext(y: real, yInv: nat, k: nat, m: nat, m': nat, r: real, r': real)
    requires 0.0 <= y <= 1.0 && Rounds(yInv, y) && k > 0 && m <= 0x8000_0000
    requires m' == Decay(m, yInv) && r' == r * y + 1024.0
    requires 0.0 <= r - m as real <= 2.0 * (1.0 + Geometric(y, k - 1))
    ensures 0.0 <= r' - m' as real <= 2.0 * (1.0 + Geometric(y, k))
  {
    TrackStep(m, r, y, yInv, m', r', Geometric(y, k - 1), Geometric(y, k));
  }

  lemma Unfold(y: real, yInv: nat, k: nat)
    ensures Iterate(yInv, k + 1) == Decay(Iterate(yInv, k), yInv) && Exact(y, k + 1) == Exact(y, k) * y + 1024.0
  {}

  /** Iterate `k` is at or below the real sequence, within the bound. */
  ghost predicate Tracks(y: real, yInv: nat, k: nat)
    requires k > 0
  {
    0.0 <= Exact(y, k) - Iterate(yInv, k) as real <= 2.0 * (1.0 + Geometric(y, k - 1))
  }

  lemma TracksNext(y: real, yInv: nat, k: nat)
    requires 0.0 <= y <= 1.0 && Rounds(yInv, y) && k > 0 && Iterate(yInv, k) <= 0x8000_0000 && Tracks(y, yInv, k)
    ensures Tracks(y, yInv, k + 1)
  {
    Unfold(y, yInv, k);
    TrackNext(y, yInv, k, Iterate(yInv, k), Iterate(yInv, k + 1), Exact(y, k), Exact(y, k + 1));
  }

  /**
   "This is the same as max = max * y + 1024", up to this: while the iterates stay within 2^31 they are
   at or below the real sequence, after k steps by at most 2 * (1 + y + ... + y^(k-1)).
   */
  lemma {:induction false} IteratesTrack(y: real, yInv: nat, k: nat)
    requires 0.0 <= y <= 1.0 && Rounds(yInv, y) && k > 0
    requires forall j | 0 <= j < k :: Iterate(yInv, j) <= 0x8000_0000
    ensures Tracks(y, yInv, k)
  {
    if k == 1 {
      FirstTracks(y, yInv);
    } else {
      IteratesTrack(y, yInv, k - 1);
      TracksNext(y, yInv, k - 1);
    }
  }

  /** So they are never more than 2 / (1 - y) below it. */
  lemma IteratesWithin(y: real, yInv: nat, k: nat)
    requires 0.0 <= y < 1.0 && Rounds(yInv, y) && k > 0
    requires Iterate(yInv, k - 1) <= 0x8000_0000
    ensures Iterate(yInv, k) as real <= Exact(y, k) <= Iterate(yInv, k) as real + 2.0 * (1.0 / (1.0 - y))
  {
    forall j | 0 <= j < k
      ensures Iterate(yInv, j) <= 0x8000_0000
    {
      IteratesSorted(yInv, j, k - 1);
    }
    IteratesTrack(y, yInv, k);
    GeometricClosed(y, k - 1);
  }

  /** The converged value itself is within 2 / (1 - y) of 1024 / (1 - y), the real limit. */
  lemma LimitNearReal(y: real, yInv: nat)
    requires 0.0 <= y < 1.0 && Rounds(yInv, y) && Limit(yInv) <= 0x8000_0000
    ensures Limit(yInv) as real <= 1024.0 / (1.0 - y)
    ensures 1024.0 / (1.0 - y) - 2.0 / (1.0 - y) <= Limit(yInv) as real
  {
    LeastFixedPoint(yInv);
    DecayTracks(Limit(yInv), y, yInv, Limit(yInv) as real * y, Limit(yInv));
    DivideBound(Limit(yInv) as real, 1.0 - y, 1024.0);
    DivideBound(Limit(yInv) as real, 1.0 - y, 1022.0);
    assert 1022.0 / (1.0 - y) == 1024.0 / (1.0 - y) - 2.0 / (1.0 - y);
  }

  // ---------------------------------------------------------------- the sums of one half-life

  /** The table entry: every step multiplies by y and drops the fraction. */
  function YNSum(y: real, k: nat): nat
    requires y >= 0.0
  {
    if k == 0 then 0 else SumStep(YNSum(y, k - 1), y)
  }

  function SumStep(s: nat, y: real): (r: nat)
    requires y >= 0.0
    ensures r as real <= s as real * y + 1024.0 * y < r as real + 1.0
  {
    (s as real * y + 1024.0 * y).Floor
  }

  lemma ScaledLoss(y: real, lost: real, bound: real, scaled: real, h: real)
    requires y >= 0.0 && 0.0 <= lost <= bound && scaled == y * lost && h == y * bound
    ensures 0.0 <= scaled <= h
  {
    RealMulMono(y, 0.0, lost);
    RealMulMono(y, lost, bound);
  }

  /** One step of the table, from `s` below 1024 times the real sum `h`. */
  lemma SumLoses(y: real, s: nat, s': nat, h0: real, h: real, h': real)
    requires y >= 0.0 && 0.0 <= 1024.0 * h - s as real <= 1.0 + h0
    requires s' == SumStep(s, y) && h == y + y * h0 && h' == y + y * h
    ensures 0.0 <= 1024.0 * h' - s' as real < 1.0 + h
  {
    ScaledLoss(y, 1024.0 * h - s as real, 1.0 + h0, 1024.0 * (h' - y) - s as real * y, h);
  }

  lemma FirstLoses(y: real)
    requires y >= 0.0
    ensures 0.0 <= 1024.0 * Geometric(y, 1) - YNSum(y, 1) as real < 1.0
  {
    assert Geometric(y, 0) == 0.0 && YNSum(y, 0) == 0;
    assert Geometric(y, 1) == y && YNSum(y, 1) == SumStep(0, y);
  }

  /**
   Against 1024 * (y + ... + y^k), the truncations only lose, and after k steps they have lost less than
   1 + y + ... + y^(k-1).
   */
  lemma {:induction false} YNSumDrift(y: real, k: nat)
    requires y >= 0.0 && k > 0
    ensures 0.0 <= 1024.0 * Geometric(y, k) - YNSum(y, k) as real < 1.0 + Geometric(y, k - 1)
  {
    if k == 1 {
      FirstLoses(y);
    } else {
      YNSumDrift(y, k - 1);
      SumLoses(y, YNSum(y, k - 1), YNSum(y, k), Geometric(y, k - 2), Geometric(y, k - 1), Geometric(y, k));
    }
  }

  lemma SumStepMono(s: nat, s': nat, y: real)
    requires y >= 0.0 && s <= s'
    ensures SumStep(s, y) <= SumStep(s', y)
  {
    RealMulMono(y, s as real, s' as real);
  }

  /** The table never decreases. */
  lemma {:induction false} YNSumClimbs(y: real, k: nat)
    requires y >= 0.0
    ensures YNSum(y, k) <= YNSum(y, k + 1)
  {
    if k > 0 {
      YNSumClimbs(y, k - 1);
      SumStepMono(YNSum(y, k - 1), YNSum(y, k), y);
    }
  }

  // ---------------------------------------------------------------- the accumulated sums

  /** Integer division as C does it. */
  function Truncated(a: int, b: int): int
    requires b > 0
  {
    if a >= 0 then a / b else -(-a / b)
  }

  /** It drops the fraction, towards zero from either side. */
  lemma TruncatesTowardsZero(a: int, b: int)
    requires b > 0
    ensures a >= 0 ==> 0 <= a - Truncated(a, b) * b < b
    ensures a <= 0 ==> -b < a - Truncated(a, b) * b <= 0
  {
    DivBound(a, b, a / b);
    DivBound(a, b, a / b + 1);
    DivBound(-a, b, -a / b);
    DivBound(-a, b, -a / b + 1);
    assert a < 0 ==> Truncated(a, b) * b == -((-a / b) * b);
  }

  /** The k-th value printed, counting from one. */
  function Accumulated(s: int, k: nat): int
    requires k >= 1
  {
    if k == 1 then s else Truncated(Accumulated(s, k - 1), 2) + s
  }

  lemma DivTwice(a: nat, p: nat)
    requires p >= 1
    ensures a / (2 * p) == (a / p) / 2
  {
    var q := (a / p) / 2;
    DivBound(a, p, 2 * q);
    DivBound(a, p, 2 * q + 2);
    DivBound(a, 2 * p, q);
    DivBound(a, 2 * p, q + 1);
    assert (2 * q) * p == q * (2 * p) && (2 * q + 2) * p == (q + 1) * (2 * p);
  }

  /** The closed form of the table. */
  lemma {:induction false} AccumulatedClosed(s: int, k: nat)
    requires s >= 1 && k >= 1
    ensures Accumulated(s, k) == 2 * s - 1 - (s - 1) / Pow2(k - 1)
  {
    if k > 1 {
      AccumulatedClosed(s, k - 1);
      DivTwice(s - 1, Pow2(k - 2));
      var q := (s - 1) / Pow2(k - 2);
      DivBound(s - 1, Pow2(k - 2), 0);
      DivBound(s - 1, Pow2(k - 2), s);
      assert Accumulated(s, k) == (2 * s - 1 - q) / 2 + s;
    }
  }

  lemma QuotientHalves(a: nat, p: nat)
    requires p >= 1
    ensures 0 <= a / (2 * p) <= a / p <= a
    ensures a / p == 0 <==> p > a
  {
    DivTwice(a, p);
    DivBound(a, p, 0);
    DivBound(a, p, 1);
    DivBound(a, p, a + 1);
  }

  /** The table never decreases, and stays at 2s - 1 once 2^(k-1) has reached s, not before. */
  lemma AccumulatedClimbs(s: int, k: nat)
    requires s >= 1 && k >= 1
    ensures s <= Accumulated(s, k) <= Accumulated(s, k + 1) <= 2 * s - 1
    ensures Accumulated(s, k) == 2 * s - 1 <==> Pow2(k - 1) >= s
  {
    AccumulatedClosed(s, k);
    AccumulatedClosed(s, k + 1);
    QuotientHalves(s - 1, Pow2(k - 1));
  }

  /** A table that starts with 0 and goes on with the accumulated values. */
  ghost predicate AccumulatedTable(table: seq<int>, s: int) {
    |table| > 0 && table[0] == 0 && forall k | 1 <= k < |table| :: table[k] == Accumulated(s, k)
  }

  lemma TableNext(table: seq<int>, s: int, x: int)
    requires AccumulatedTable(table, s) && x == Accumulated(s, |table|)
    ensures AccumulatedTable(table + [x], s)
  {}

  // ---------------------------------------------------------------- the program

  /** The first entry of the table, made from 1024 alone, is the general step from an empty sum. */
  lemma SumNext(y: real, i: nat, s: int)
    requires y >= 0.0 && i >= 1
    requires s == if i == 1 then 1024 else YNSum(y, i - 1)
    ensures YNSum(y, i) == (if i == 1 then (s as real * y).Floor else (s as real * y + 1024.0 * y).Floor)
  {}

  /** The globals of the program. */
  class Generator {
    const y: real
    var sum: int
    var n: int
    var max: int

    constructor (y: real)
      ensures this.y == y && sum == 1024 && n == -1 && max == 1024
    {
      this.y := y;
      sum, n, max := 1024, -1, 1024;
    }

    /** One entry of calc_runnable_avg_yN_sum(). */
    method NextSum(i: nat)
      requires y >= 0.0 && i >= 1
      requires sum == if i == 1 then 1024 else YNSum(y, i - 1)
      modifies this`sum
      ensures sum == YNSum(y, i)
    {
      SumNext(y, i, sum);
      if i == 1 {
        sum := (sum as real * y).Floor;
      } else {
        sum := (sum as real * y + 1024.0 * y).Floor;
      }
    }

    /** calc_runnable_avg_yN_sum() */
    method CalcYNSum() returns (table: seq<int>)
      requires 0.0 <= y <= 1.0 && sum == 1024
      modifies this`sum
      ensures |table| == 33 && sum == table[32]
      ensures forall k | 0 <= k < |table| :: table[k] == YNSum(y, k)
    {
      table := [0];
      for i := 1 to HALFLIFE + 1
        modifies this`sum
        invariant |table| == i
        invariant if i == 1 then sum == 1024 else sum == table[i - 1]
        invariant forall k | 0 <= k < i :: table[k] == YNSum(y, k)
      {
        NextSum(i);
        table := table + [sum];
      }
    }

    /** calc_converged_max() */
    method CalcConvergedMax()
      requires 0.0 <= y <= 1.0 && n == -1 && max == 1024
      modifies this`n, this`max
      ensures max == Limit(YInv(y))
      ensures n >= -1 && Iterate(YInv(y), n + 1) == Limit(YInv(y))
      ensures forall k | 0 <= k <= n :: Iterate(YInv(y), k) < Limit(YInv(y))
    {
      Converge(YInv(y));
    }

    method NextMax(yInv: nat)
      requires max >= 0
      modifies this`max
      ensures max == Decay(old(max), yInv)
    {
      max := max * yInv / SCALE + 1024;
    }

    /** The loop of calc_converged_max(). */
    method Converge(yInv: nat)
      requires yInv < SCALE && n == -1 && max == 1024
      modifies this`n, this`max
      ensures max == Limit(yInv)
      ensures n >= -1 && Iterate(yInv, n + 1) == Limit(yInv)
      ensures forall k | 0 <= k <= n :: Iterate(yInv, k) < Limit(yInv)
    {
      var last := 0;
      while true
        modifies this`n, this`max
        invariant n >= -1 && last <= Limit(yInv)
        invariant if n == -1 then max == 1024 && last == 0 else max == last == Iterate(yInv, n)
        invariant forall k | 0 <= k < n :: Iterate(yInv, k) < Limit(yInv)
        decreases Limit(yInv) - last
      {
        if n > -1 {
          NextMax(yInv);
        }
        IteratesClimb(yInv, n + 1);
        if n > -1 {
          IteratesClimb(yInv, n);
        }
        if last == max {
          break;
        }
        last := max;
        n := n + 1;
      }
      n := n - 1;
    }

    /** One entry of calc_accumulated_sum_32(). */
    method NextAccumulated(x: int, i: nat) returns (x': int)
      requires i >= 1 && x == Accumulated(sum, if i == 1 then 1 else i - 1)
      ensures x' == Accumulated(sum, i)
    {
      x' := x;
      if i > 1 {
        x' := Truncated(x, 2) + sum;
      }
    }

    /** calc_accumulated_sum_32() */
    method CalcAccumulatedSum() returns (table: seq<int>)
      requires n >= -1
      ensures |table| == Truncated(n, 32) + 2 && AccumulatedTable(table, sum)
    {
      var x, i, last := sum, 1, Truncated(n, HALFLIFE) + 1;
      table := [0];
      while i <= last
        invariant 1 <= i <= last + 1 && |table| == i && AccumulatedTable(table, sum)
        invariant x == Accumulated(sum, if i == 1 then 1 else i - 1)
      {
        x := NextAccumulated(x, i);
        TableNext(table, sum, x);
        table := table + [x];
        i := i + 1;
      }
    }
  }
}
