/** Products and quotients respect order. */
module RealFacts {

  lemma ProductNonNegative(a: real, b: real)
    requires 0.0 <= a && 0.0 <= b
    ensures 0.0 <= a * b
  {
  }

  lemma ProductPositive(a: real, b: real)
    requires 0.0 < a && 0.0 < b
    ensures 0.0 < a * b
  {
  }

  lemma TimesMonotone(x: real, y: real, k: real)
    requires x <= y && 0.0 <= k
    ensures x * k <= y * k
  {
    ProductNonNegative(y - x, k);
    assert (y - x) * k == y * k - x * k;
  }

  lemma TimesStrict(x: real, y: real, k: real)
    requires x < y && 0.0 < k
    ensures x * k < y * k
  {
    ProductPositive(y - x, k);
    assert (y - x) * k == y * k - x * k;
  }

  lemma ProductMonotone(w: real, h: real, x: real, y: real)
    requires 0.0 <= w <= x && 0.0 <= h <= y
    ensures 0.0 <= w * h <= x * y
  {
    ProductNonNegative(w, h);
    TimesMonotone(w, x, h);
    TimesMonotone(h, y, x);
  }

  lemma IntProductMonotone(w: int, h: int, x: int, y: int)
    requires 0 < w <= x && 0 < h <= y
    ensures 0 < w * h <= x * y
  {
    assert w * h <= x * h <= x * y;
  }

  lemma AtLeastOne(x: real, y: real)
    requires 1.0 <= x && 1.0 <= y
    ensures 1.0 <= x * y
  {
    ProductMonotone(1.0, 1.0, x, y);
  }

  lemma DivideMonotone(x: real, y: real, k: real)
    requires x <= y && 0.0 < k
    ensures x / k <= y / k
  {
    var p, q := x / k, y / k;
    assert p * k == x && q * k == y;
    if p > q {
      TimesStrict(q, p, k);
    }
  }

  lemma QuotientTimes(i: real, u: real)
    requires u != 0.0
    ensures i / u * u == i
  {
  }

  lemma TimesOver(v: real, u: real)
    requires u != 0.0
    ensures v * u / u == v
  {
  }

  lemma QuotientBetween(x: real, u: real, lo: real, hi: real)
    requires 0.0 < u && lo * u <= x <= hi * u
    ensures lo <= x / u <= hi
  {
    DivideMonotone(lo * u, x, u);
    DivideMonotone(x, hi * u, u);
    TimesOver(lo, u);
    TimesOver(hi, u);
  }

  lemma UnitRatio(i: real, u: real)
    requires 0.0 <= i <= u && 0.0 < u
    ensures 0.0 <= i / u <= 1.0 && (0.0 < i ==> 0.0 < i / u) && (i / u == 1.0 <==> i == u)
  {
    var q := i / u;
    assert q * u == i;
    if q < 0.0 {
      TimesStrict(q, 0.0, u);
    } else if q > 1.0 {
      TimesStrict(1.0, q, u);
    } else if q < 1.0 {
      TimesStrict(q, 1.0, u);
    }
    if q == 0.0 {
      assert q * u == 0.0 * u;
    } else if q == 1.0 {
      assert q * u == 1.0 * u;
    }
  }
}
