/** What fast_expf computes, and what the sides decoded with it mean. */
module DflFacts {
  import opened BoxDecode
  import opened RealFacts

  // ---- powers of two ----

  lemma PowStep(n: int)
    ensures PowerOfTwo(n + 1) == 2.0 * PowerOfTwo(n)
  {
  }

  /** v times 2^k. */
  function Doubled(v: real, k: nat): real {
    if k == 0 then v else 2.0 * Doubled(v, k - 1)
  }

  lemma {:induction false} DoubledTwice(v: real, j: nat, k: nat)
    ensures Doubled(Doubled(v, j), k) == Doubled(v, j + k)
  {
    if k > 0 {
      DoubledTwice(v, j, k - 1);
    }
  }

  lemma {:induction false} PowAdd(n: int, k: nat)
    ensures PowerOfTwo(n + k) == Doubled(PowerOfTwo(n), k)
  {
    if k > 0 {
      PowAdd(n, k - 1);
      PowStep(n + k - 1);
    }
  }

  const FRACTIONS := 0x80_0000

  lemma EightTimes(v: real)
    ensures Doubled(v, 3) == 8.0 * v
  {
    assert Doubled(v, 1) == 2.0 * v && Doubled(v, 2) == 4.0 * v;
  }

  /** 2^23 is the number of fractions. */
  lemma AllFractions(v: real)
    ensures Doubled(v, 23) == 8388608.0 * v
  {
    EightTimes(v);
    DoubledTwice(v, 3, 3);
    EightTimes(Doubled(v, 3));
    DoubledTwice(v, 6, 6);
    DoubledTwice(Doubled(v, 6), 3, 3);
    EightTimes(Doubled(v, 6));
    EightTimes(Doubled(Doubled(v, 6), 3));
    assert Doubled(v, 12) == 4096.0 * v;
    DoubledTwice(v, 12, 9);
    DoubledTwice(Doubled(v, 12), 3, 6);
    EightTimes(Doubled(v, 12));
    DoubledTwice(Doubled(Doubled(v, 12), 3), 3, 3);
    EightTimes(Doubled(Doubled(v, 12), 3));
    EightTimes(Doubled(Doubled(Doubled(v, 12), 3), 3));
    assert Doubled(v, 21) == 2097152.0 * v;
    assert Doubled(v, 22) == 4194304.0 * v;
  }

  // ---- the float behind a bit pattern ----

  lemma StepsNormal(r: int)
    ensures Steps(FRACTIONS + r) == (1.0 + r as real / 8388608.0) * PowerOfTwo(-126)
  {
    AllFractions(PowerOfTwo(-149));
    PowAdd(-149, 23);
    Refactor(r as real, PowerOfTwo(-149), PowerOfTwo(-126));
  }

  lemma Refactor(r: real, p: real, q: real)
    requires q == p * 8388608.0
    ensures (8388608.0 + r) * p == (1.0 + r / 8388608.0) * q
  {
    var f := r / 8388608.0;
    assert r == f * 8388608.0;
    assert (1.0 + f) * q == (1.0 + f) * (p * 8388608.0) == (8388608.0 + f * 8388608.0) * p;
  }

  lemma {:induction false} FloatDoubled(e: nat, r: int)
    ensures FloatOf(e + 1, r) == Doubled(Steps(FRACTIONS + r), e)
  {
    if e > 0 {
      FloatDoubled(e - 1, r);
    }
  }

  /** The float with exponent e >= 1 and fraction r is 2^-126 * (1 + r / 2^23),
      doubled e - 1 times. */
  lemma FloatIs(e: nat, r: int)
    requires e >= 1
    ensures FloatOf(e, r) == Doubled((1.0 + r as real / 8388608.0) * PowerOfTwo(-126), e - 1)
  {
    FloatDoubled(e - 1, r);
    StepsNormal(r);
  }

  lemma FloatAtPower(e: nat)
    requires e >= 1
    ensures FloatOf(e, 0) == PowerOfTwo(e - 127)
  {
    FloatIs(e, 0);
    PowAdd(-126, e - 1);
  }

  lemma StepsMonotone(i: int, j: int)
    requires i <= j
    ensures Steps(i) <= Steps(j)
  {
    TimesMonotone(i as real, j as real, PowerOfTwo(-149));
  }

  lemma {:induction false} FloatMonotone(e: nat, r: int, q: int)
    requires r <= q
    ensures FloatOf(e, r) <= FloatOf(e, q)
  {
    if e == 0 {
      StepsMonotone(r, q);
    } else if e == 1 {
      StepsMonotone(FRACTIONS + r, FRACTIONS + q);
    } else {
      FloatMonotone(e - 1, r, q);
    }
  }

  /** The next exponent starts above every float of this one. */
  lemma {:induction false} FloatOrdered(e: nat, r: int, d: nat, q: int)
    requires e < d && 0 <= r < FRACTIONS && 0 <= q
    ensures FloatOf(e, r) <= FloatOf(d, q)
    decreases d
  {
    if d == 1 {
      StepsMonotone(r, FRACTIONS + q);
    } else if e == d - 1 {
      TopOfExponent(e, r, q);
    } else {
      FloatOrdered(e, r, d - 1, q);
    }
  }

  lemma {:induction false} TopOfExponent(e: nat, r: int, q: int)
    requires e >= 1 && 0 <= r < FRACTIONS && 0 <= q
    ensures FloatOf(e, r) <= FloatOf(e + 1, q)
  {
    if e == 1 {
      StepsTwice(FRACTIONS + q);
      StepsMonotone(FRACTIONS + r, 2 * (FRACTIONS + q));
    } else {
      TopOfExponent(e - 1, r, q);
    }
  }

  lemma StepsTwice(n: int)
    ensures Steps(2 * n) == 2.0 * Steps(n)
  {
    TwiceProduct(PowerOfTwo(-149), n as real, (2 * n) as real);
  }

  /** Bit patterns of positive floats are ordered as the floats are. */
  lemma BitsMonotone(i: int, j: int)
    requires 0 < i <= j
    ensures FloatOfBits(i) <= FloatOfBits(j)
  {
    if i / FRACTIONS == j / FRACTIONS {
      FloatMonotone(i / FRACTIONS, i % FRACTIONS, j % FRACTIONS);
    } else {
      FloatOrdered(i / FRACTIONS, i % FRACTIONS, j / FRACTIONS, j % FRACTIONS);
    }
  }

  lemma TwiceProduct(m: real, p: real, q: real)
    requires q == 2.0 * p
    ensures m * q == 2.0 * (m * p)
  {
  }

  lemma NextExponent(i: int)
    requires i >= FRACTIONS
    ensures (i + FRACTIONS) / FRACTIONS == i / FRACTIONS + 1 && (i + FRACTIONS) % FRACTIONS == i % FRACTIONS
  {
  }

  /** One exponent up is twice the float. */
  lemma BitsDouble(i: int)
    requires i >= FRACTIONS
    ensures FloatOfBits(i + FRACTIONS) == 2.0 * FloatOfBits(i)
  {
    NextExponent(i);
  }

  // ---- fast_expf ----

  /** The bit pattern is the scaled argument cut toward zero, plus the bias. */
  lemma BitsWithin(x: real)
    ensures var e := (ExpBits(x) - BIAS) as real;
      if x >= 0.0 then e <= 12102203.0 * x < e + 1.0 else e - 1.0 < 12102203.0 * x <= e
  {
  }

  lemma FastExpAtZero()
    ensures FastExp(0.0) == 1.0
  {
    FloatAtPower(127);
    assert ExpBits(0.0) == BIAS && BIAS / FRACTIONS == 127 && BIAS % FRACTIONS == 0;
  }

  lemma BitsOrdered(x: real, y: real)
    requires x <= y
    ensures ExpBits(x) <= ExpBits(y)
  {
    TimesMonotone(x, y, 12102203.0);
  }

  /** fast_expf never falls. */
  lemma FastExpMonotone(x: real, y: real)
    requires x <= y
    ensures FastExp(x) <= FastExp(y)
  {
    BitsOrdered(x, y);
    if ExpBits(x) > 0 {
      BitsMonotone(ExpBits(x), ExpBits(y));
    }
  }

  lemma {:induction false} BitsScale(i: int, j: int, k: nat)
    requires i >= FRACTIONS && j == i + k * FRACTIONS
    ensures FloatOfBits(j) == Doubled(FloatOfBits(i), k)
  {
    if k > 0 {
      BitsScale(i, j - FRACTIONS, k - 1);
      BitsDouble(j - FRACTIONS);
    }
  }

  lemma FastExpIs(x: real)
    requires ExpBits(x) > 0
    ensures FastExp(x) == FloatOfBits(ExpBits(x))
  {
  }

  /** Arguments whose bit patterns are k exponents apart differ by the factor 2^k. */
  lemma FastExpDoubles(x: real, y: real, k: nat)
    requires ExpBits(x) >= FRACTIONS && ExpBits(y) == ExpBits(x) + k * FRACTIONS
    ensures FastExp(y) == Doubled(FastExp(x), k)
  {
    FastExpIs(x);
    FastExpIs(y);
    BitsScale(ExpBits(x), ExpBits(y), k);
  }

  /** At the k-th step of ln 2 below zero, fast_expf is 2^-k exactly. */
  lemma FastExpAtPowers(k: int)
    requires 0 <= k <= 126
    ensures FastExp(-(k * FRACTIONS) as real / 12102203.0) == PowerOfTwo(-k)
  {
    var x := -(k * FRACTIONS) as real / 12102203.0;
    QuotientTimes(-(k * FRACTIONS) as real, 12102203.0);
    assert 12102203.0 * x == -(k * FRACTIONS) as real;
    assert ExpBits(x) == BIAS - k * FRACTIONS == (127 - k) * FRACTIONS;
    FloatAtPower(127 - k);
  }

  // ---- sides ----

  function Others(ws: seq<real>, k: nat): real {
    Sum(ws) - if k < |ws| then ws[k] else 0.0
  }

  /** Weight w on an arm of length x. */
  function Arm(x: real, w: real): real {
    x * w
  }

  lemma ArmAtMost(x: real, w: real)
    requires x <= 15.0 && 0.0 <= w
    ensures Arm(x, w) <= 15.0 * w
  {
    ProductNonNegative(15.0 - x, w);
    assert (15.0 - x) * w == 15.0 * w - x * w;
  }

  lemma ArmAtLeast(x: real, w: real)
    requires -15.0 <= x && 0.0 <= w
    ensures -15.0 * w <= Arm(x, w)
  {
    ProductNonNegative(15.0 + x, w);
    assert (15.0 + x) * w == 15.0 * w + x * w;
  }

  lemma NoArm(w: real)
    ensures Arm(0.0, w) == 0.0
  {
  }

  /** The weights turning about bin k. */
  function Turning(ws: seq<real>, k: nat): real {
    if ws == [] then 0.0 else Turning(ws[..|ws| - 1], k) + Arm((|ws| - 1) as real - k as real, ws[|ws| - 1])
  }

  lemma Distribute(a: real, b: real, w: real)
    ensures (a - b) * w == a * w - b * w && (a + b) * w == a * w + b * w
  {
  }

  lemma TurningStep(t: real, m: real, s: real, w: real, j: real, k: real)
    requires t == m - k * s
    ensures t + Arm(j - k, w) == m + j * w - k * (s + w)
  {
    Distribute(j, k, w);
    Distribute(s, w, k);
  }

  lemma {:induction false} TurningIs(ws: seq<real>, k: nat)
    ensures Turning(ws, k) == Moment(ws) - k as real * Sum(ws)
  {
    if ws != [] {
      var j := |ws| - 1;
      TurningIs(ws[..j], k);
      TurningStep(Turning(ws[..j], k), Moment(ws[..j]), Sum(ws[..j]), ws[j], j as real, k as real);
    }
  }

  lemma {:induction false} TurningBound(ws: seq<real>, k: nat)
    requires NonNegative(ws) && |ws| <= 16 && k < 16
    ensures -15.0 * Others(ws, k) <= Turning(ws, k) <= 15.0 * Others(ws, k)
  {
    if ws != [] {
      var j := |ws| - 1;
      TurningBound(ws[..j], k);
      ArmAtMost(j as real - k as real, ws[j]);
      ArmAtLeast(j as real - k as real, ws[j]);
      NoArm(ws[j]);
    }
  }

  /** The moment about bin k is at most 15 times the weight beside it. */
  lemma MomentAbout(ws: seq<real>, k: nat)
    requires NonNegative(ws) && |ws| <= 16 && k < 16
    ensures -15.0 * Others(ws, k) <= Moment(ws) - k as real * Sum(ws) <= 15.0 * Others(ws, k)
  {
    TurningIs(ws, k);
    TurningBound(ws, k);
  }

  lemma {:induction false} OthersSmall(ws: seq<real>, k: nat, most: real)
    requires NonNegative(ws) && 0.0 <= most
    requires forall j :: 0 <= j < |ws| && j != k ==> ws[j] <= most
    ensures 0.0 <= Others(ws, k) <= (|ws| - if k < |ws| then 1 else 0) as real * most
  {
    if ws != [] {
      var j := |ws| - 1;
      OthersSmall(ws[..j], k, most);
      assert forall i :: 0 <= i < j ==> ws[..j][i] == ws[i];
    }
  }

  lemma QuotientNear(m: real, s: real, k: real, b: real)
    requires 0.0 < s && -(b * s) <= m - k * s <= b * s
    ensures -b <= m / s - k <= b
  {
    Distribute(k, b, s);
    QuotientBetween(m, s, k - b, k + b);
  }

  lemma SumAtLeast(ws: seq<real>, k: nat)
    requires NonNegative(ws) && k < |ws|
    ensures ws[k] <= Sum(ws)
  {
    SumsUpdate(ws, k, 0.0);
    MomentBounds(ws[k := 0.0], |ws| as real);
  }

  lemma Spread(d: real, t: real, w: real, s: real, e: real)
    requires -(15.0 * t) <= d <= 15.0 * t && t <= 15.0 * (e * w) && w <= s && 0.0 <= e
    ensures -(225.0 * e * s) <= d <= 225.0 * e * s
  {
    TimesMonotone(w, s, e);
  }

  lemma OthersDominated(ws: seq<real>, k: nat, e: real, most: real)
    requires NonNegative(ws) && |ws| == 16 && k < 16 && most == e * ws[k] && 0.0 <= most
    requires forall j :: 0 <= j < 16 && j != k ==> ws[j] <= e * ws[k]
    ensures Others(ws, k) <= 15.0 * most
  {
    OthersSmall(ws, k, most);
  }

  lemma DominantMean(ws: seq<real>, k: nat, e: real)
    requires NonNegative(ws) && |ws| == 16 && k < 16 && 0.0 <= e && 0.0 < ws[k]
    requires forall j :: 0 <= j < 16 && j != k ==> ws[j] <= e * ws[k]
    ensures Mean(ws).Some? && -225.0 * e <= Mean(ws).value - k as real <= 225.0 * e
  {
    SumAtLeast(ws, k);
    ProductNonNegative(e, ws[k]);
    OthersDominated(ws, k, e, e * ws[k]);
    MomentAbout(ws, k);
    MeanNear(Moment(ws), Sum(ws), k as real, Others(ws, k), ws[k], e);
  }

  lemma MeanNear(m: real, s: real, k: real, t: real, w: real, e: real)
    requires -(15.0 * t) <= m - k * s <= 15.0 * t && t <= 15.0 * (e * w) && 0.0 < w <= s && 0.0 <= e
    ensures -225.0 * e <= m / s - k <= 225.0 * e
  {
    Spread(m - k * s, t, w, s, e);
    QuotientNear(m, s, k, 225.0 * e);
  }

  /** A side whose bin k outweighs every other bin decodes to within a small
      multiple of the outweighing ratio of k. */
  lemma DominantBin(side: seq<int>, k: nat, top: int, scale: real, e: real)
    requires |side| == 16 && k < 16 && 0.0 <= e && Weight(side[k], top, scale) > 0.0
    requires forall j :: 0 <= j < 16 && j != k ==> Weight(side[j], top, scale) <= e * Weight(side[k], top, scale)
    ensures Side(side, top, scale).Some?
    ensures -225.0 * e <= Side(side, top, scale).value - k as real <= 225.0 * e
  {
    DominantMean(Weights(side, top, scale), k, e);
  }

  lemma TopWeight(top: int, scale: real)
    ensures Weight(top, top, scale) == 1.0
  {
    assert (top - top) as real * scale == 0.0;
    FastExpAtZero();
  }

  lemma BelowTop(q: int, top: int, gap: int, scale: real)
    requires q <= top - gap && 0.0 <= scale
    ensures Weight(q, top, scale) <= FastExp((-gap) as real * scale)
  {
    ScaledMonotone(q - top, -gap, scale);
    FastExpMonotone((q - top) as real * scale, (-gap) as real * scale);
  }

  lemma PeakSide(side: seq<int>, k: nat, top: int, gap: int, scale: real)
    requires |side| == 16 && k < 16 && side[k] == top && 0.0 <= scale
    requires forall j :: 0 <= j < 16 && j != k ==> side[j] <= top - gap
    ensures Side(side, top, scale).Some?
    ensures var e := FastExp((-gap) as real * scale);
      -225.0 * e <= Side(side, top, scale).value - k as real <= 225.0 * e
  {
    TopWeight(top, scale);
    forall j | 0 <= j < 16 && j != k
      ensures Weight(side[j], top, scale) <= FastExp((-gap) as real * scale)
    {
      BelowTop(side[j], top, gap, scale);
    }
    DominantMean(Weights(side, top, scale), k, FastExp((-gap) as real * scale));
  }

  /** So if bin k of side s holds the anchor's maximum, the side's other bins at
      least `gap` below it, the side decodes to k up to 225 times the weight of
      the gap. */
  lemma PeakDecodes(x: seq<int>, s: nat, k: nat, gap: int, scale: real)
    requires |x| == 64 && s < 4 && k < 16 && 0.0 <= scale
    requires var side := x[16 * s..16 * s + 16];
      side[k] == MaxOf(x) && forall j :: 0 <= j < 16 && j != k ==> side[j] <= MaxOf(x) - gap
    ensures SideOf(x, s, scale).Some?
    ensures var e := FastExp((-gap) as real * scale);
      -225.0 * e <= SideOf(x, s, scale).value - k as real <= 225.0 * e
  {
    PeakSide(x[16 * s..16 * s + 16], k, MaxOf(x), gap, scale);
  }

  lemma {:induction false} SumsUpdate(ws: seq<real>, k: nat, v: real)
    requires k < |ws|
    ensures Sum(ws[k := v]) == Sum(ws) + (v - ws[k])
    ensures Moment(ws[k := v]) == Moment(ws) + k as real * (v - ws[k])
  {
    var j := |ws| - 1;
    if j == k {
      assert ws[k := v][..j] == ws[..j];
    } else {
      SumsUpdate(ws[..j], k, v);
      assert ws[k := v][..j] == ws[..j][k := v];
    }
  }

  /** From `was` toward k, and never past it. */
  predicate Toward(was: real, now: real, k: real) {
    if was <= k then was <= now <= k else k <= now <= was
  }

  /** Adding weight d at k moves a mean toward k. */
  lemma MeanMoves(m: real, s: real, k: real, d: real, m1: real, s1: real)
    requires 0.0 < s && 0.0 <= d && m1 == m + k * d && s1 == s + d
    ensures Toward(m / s, m1 / s1, k) && (0.0 < d && m / s != k ==> m1 / s1 != m / s)
  {
    var was, now := m / s, m1 / s1;
    assert was * s == m && now * s1 == m1;
    assert (now - was) * s1 == (k - was) * d;
    assert (k - now) * s1 == (k - was) * s;
    SameSign(now - was, s1, k - was, d);
    SameSign(k - now, s1, k - was, s);
  }

  lemma SameSign(x: real, a: real, y: real, b: real)
    requires x * a == y * b && 0.0 < a && 0.0 <= b
    ensures (0.0 <= y ==> 0.0 <= x) && (y <= 0.0 ==> x <= 0.0) && (0.0 < b && y != 0.0 ==> x != 0.0)
  {
    if 0.0 <= y {
      ProductNonNegative(y, b);
    } else {
      ProductNonNegative(-y, b);
    }
    if x < 0.0 {
      TimesStrict(x, 0.0, a);
    } else if x > 0.0 {
      TimesStrict(0.0, x, a);
    } else if 0.0 < b && y > 0.0 {
      ProductPositive(y, b);
    } else if 0.0 < b && y < 0.0 {
      ProductPositive(-y, b);
    }
  }

  lemma ScaledMonotone(q: int, r: int, scale: real)
    requires q <= r && 0.0 <= scale
    ensures q as real * scale <= r as real * scale
  {
    TimesMonotone(q as real, r as real, scale);
  }

  lemma WeightMonotone(q: int, r: int, top: int, scale: real)
    requires q <= r && 0.0 <= scale
    ensures Weight(q, top, scale) <= Weight(r, top, scale)
  {
    ScaledMonotone(q - top, r - top, scale);
    FastExpMonotone((q - top) as real * scale, (r - top) as real * scale);
  }

  lemma UpdatedMean(ws: seq<real>, k: nat, v: real)
    requires NonNegative(ws) && k < |ws| && ws[k] <= v && Mean(ws).Some?
    ensures Mean(ws[k := v]).Some? && Toward(Mean(ws).value, Mean(ws[k := v]).value, k as real)
    ensures ws[k] < v && Mean(ws).value != k as real ==> Mean(ws[k := v]) != Mean(ws)
  {
    SumsUpdate(ws, k, v);
    MomentBounds(ws, |ws| as real);
    MeanMoves(Moment(ws), Sum(ws), k as real, v - ws[k], Moment(ws[k := v]), Sum(ws[k := v]));
  }

  /** Raising bin k moves the decoded side toward k, never past it, and does
      move it when the bin's weight rises. */
  lemma RaisedBinPulls(side: seq<int>, k: nat, q: int, top: int, scale: real)
    requires k < |side| && side[k] <= q && 0.0 <= scale && Side(side, top, scale).Some?
    ensures var was, now := Side(side, top, scale), Side(side[k := q], top, scale);
      now.Some? && Toward(was.value, now.value, k as real) &&
      (Weight(side[k], top, scale) < Weight(q, top, scale) && was.value != k as real ==> now != was)
  {
    var ws := Weights(side, top, scale);
    WeightMonotone(side[k], q, top, scale);
    assert Weights(side[k := q], top, scale) == ws[k := Weight(q, top, scale)];
    UpdatedMean(ws, k, Weight(q, top, scale));
  }

  lemma MaxOfUpdate(x: seq<int>, i: nat, q: int)
    requires i < |x| && x[i] <= q <= MaxOf(x)
    ensures MaxOf(x[i := q]) == MaxOf(x)
  {
    var a :| 0 <= a < |x| && x[a] == MaxOf(x);
    assert x[i := q][a] == MaxOf(x);
  }

  /** The same for the anchor: one raised value, not above the anchor's maximum,
      pulls its own side toward its bin and leaves the other sides alone. */
  lemma RaisedValuePulls(x: seq<int>, s: nat, k: nat, q: int, scale: real)
    requires |x| == 64 && s < 4 && k < 16 && x[16 * s + k] <= q <= MaxOf(x) && 0.0 <= scale
    requires SideOf(x, s, scale).Some?
    ensures var was, now := SideOf(x, s, scale), SideOf(x[16 * s + k := q], s, scale);
      now.Some? && Toward(was.value, now.value, k as real)
    ensures forall r :: 0 <= r < 4 && r != s ==> SideOf(x[16 * s + k := q], r, scale) == SideOf(x, r, scale)
  {
    var y := x[16 * s + k := q];
    MaxOfUpdate(x, 16 * s + k, q);
    assert y[16 * s..16 * s + 16] == x[16 * s..16 * s + 16][k := q];
    RaisedBinPulls(x[16 * s..16 * s + 16], k, q, MaxOf(x), scale);
    forall r | 0 <= r < 4 && r != s
      ensures SideOf(y, r, scale) == SideOf(x, r, scale)
    {
      assert y[16 * r..16 * r + 16] == x[16 * r..16 * r + 16];
    }
  }
}
