/** Overlap of candidate boxes, and the in-place suppression loop. */
module Nms {
  import opened Suppression
  import opened RealFacts
  import opened Cells

  datatype RBox = RBox(xmin: real, ymin: real, xmax: real, ymax: real)

  function Max(a: real, b: real): real {
    if a >= b then a else b
  }

  function Min(a: real, b: real): real {
    if a <= b then a else b
  }

  /** Intersection over union of areas `i` and the union `u`, as the code guards it. */
  function Ratio(i: real, u: real): real {
    if u <= 0.0 then 0.0 else i / u
  }

  /** Pixels from lo to hi, both included. */
  function Span(lo: real, hi: real): real {
    hi - lo + 1.0
  }

  function Area(a: RBox): real {
    Span(a.xmin, a.xmax) * Span(a.ymin, a.ymax)
  }

  function Shared(a: RBox, b: RBox): real {
    Max(0.0, Span(Max(a.xmin, b.xmin), Min(a.xmax, b.xmax))) * Max(0.0, Span(Max(a.ymin, b.ymin), Min(a.ymax, b.ymax)))
  }

  /** The union of two boxes, as the code adds it up. */
  function Together(a: RBox, b: RBox): real {
    Area(a) + Area(b) - Shared(a, b)
  }

  /** CalculateOverlap, with its one-pixel convention. */
  function Overlap(a: RBox, b: RBox): real {
    Ratio(Shared(a, b), Together(a, b))
  }

  predicate Proper(a: RBox) {
    a.xmin <= a.xmax && a.ymin <= a.ymax
  }

  lemma SharedBound(a: RBox, b: RBox)
    requires Proper(a) && Proper(b)
    ensures 0.0 <= Shared(a, b) <= Area(a)
  {
    var w := Max(0.0, Span(Max(a.xmin, b.xmin), Min(a.xmax, b.xmax)));
    var h := Max(0.0, Span(Max(a.ymin, b.ymin), Min(a.ymax, b.ymax)));
    ProductMonotone(w, h, Span(a.xmin, a.xmax), Span(a.ymin, a.ymax));
  }

  lemma AreaBound(a: RBox)
    requires Proper(a)
    ensures 1.0 <= Area(a)
  {
    AtLeastOne(Span(a.xmin, a.xmax), Span(a.ymin, a.ymax));
  }

  lemma RatioBound(i: real, a: real, b: real)
    requires 0.0 <= i <= a && i <= b && 0.0 < a
    ensures 0.0 <= Ratio(i, a + b - i) <= 1.0
  {
    UnitRatio(i, a + b - i);
  }

  lemma SharedSymmetric(a: RBox, b: RBox)
    ensures Shared(a, b) == Shared(b, a)
  {
  }

  /** Overlap of proper boxes lies in [0, 1]. */
  lemma OverlapIsIou(a: RBox, b: RBox)
    requires Proper(a) && Proper(b)
    ensures 0.0 <= Overlap(a, b) <= 1.0
  {
    SharedBound(a, b);
    SharedBound(b, a);
    SharedSymmetric(a, b);
    AreaBound(a);
    RatioBound(Shared(a, b), Area(a), Area(b));
  }

  /** The overlap of two boxes does not depend on which comes first. */
  lemma OverlapSymmetric(a: RBox, b: RBox)
    ensures Overlap(a, b) == Overlap(b, a)
  {
    SharedSymmetric(a, b);
  }

  // ---- counting pixels ----

  /** A box whose corners are pixels, all four sides included. */
  datatype PixelBox = PixelBox(xmin: int, ymin: int, xmax: int, ymax: int)

  function AsReal(p: PixelBox): RBox {
    RBox(p.xmin as real, p.ymin as real, p.xmax as real, p.ymax as real)
  }

  ghost function Covered(p: PixelBox): set<Cell> {
    Points(p.xmin, p.ymin, p.xmax + 1, p.ymax + 1)
  }

  /** The pixels of both boxes, as a box. */
  function Common(p: PixelBox, q: PixelBox): PixelBox {
    PixelBox(if p.xmin >= q.xmin then p.xmin else q.xmin, if p.ymin >= q.ymin then p.ymin else q.ymin,
             if p.xmax <= q.xmax then p.xmax else q.xmax, if p.ymax <= q.ymax then p.ymax else q.ymax)
  }

  predicate Filled(p: PixelBox) {
    p.xmin <= p.xmax && p.ymin <= p.ymax
  }

  lemma CommonCovered(p: PixelBox, q: PixelBox)
    ensures Covered(p) * Covered(q) == Covered(Common(p, q))
    ensures !Filled(Common(p, q)) ==> Covered(Common(p, q)) == {}
  {
  }

  lemma CastProduct(w: int, h: int)
    ensures (w * h) as real == w as real * h as real
  {
  }

  lemma FilledArea(p: PixelBox)
    requires Filled(p)
    ensures Area(AsReal(p)) == |Covered(p)| as real
    ensures |Covered(p)| > 0
  {
    PointsSize(p.xmin, p.ymin, p.xmax + 1, p.ymax + 1);
    CastProduct(p.xmax + 1 - p.xmin, p.ymax + 1 - p.ymin);
    IntProductMonotone(1, 1, p.xmax + 1 - p.xmin, p.ymax + 1 - p.ymin);
  }

  lemma ClippedSpan(lo: int, hi: int, lo': int, hi': int)
    ensures var l, h := if lo >= lo' then lo else lo', if hi <= hi' then hi else hi';
      Max(0.0, Span(Max(lo as real, lo' as real), Min(hi as real, hi' as real))) ==
      if l <= h then Span(l as real, h as real) else 0.0
  {
  }

  lemma ClippedProduct(w: real, h: real, w': real, h': real, inside: bool)
    requires inside ==> w == w' && h == h'
    requires !inside ==> w == 0.0 || h == 0.0
    ensures w * h == if inside then w' * h' else 0.0
  {
    if w == 0.0 {
      assert w * h == 0.0 * h;
    } else if h == 0.0 {
      assert w * h == w * 0.0;
    }
  }

  lemma SharedIsArea(p: PixelBox, q: PixelBox)
    ensures Shared(AsReal(p), AsReal(q)) == if Filled(Common(p, q)) then Area(AsReal(Common(p, q))) else 0.0
  {
    var a, b, c := AsReal(p), AsReal(q), AsReal(Common(p, q));
    ClippedSpan(p.xmin, p.xmax, q.xmin, q.xmax);
    ClippedSpan(p.ymin, p.ymax, q.ymin, q.ymax);
    ClippedProduct(Max(0.0, Span(Max(a.xmin, b.xmin), Min(a.xmax, b.xmax))),
                   Max(0.0, Span(Max(a.ymin, b.ymin), Min(a.ymax, b.ymax))),
                   Span(c.xmin, c.xmax), Span(c.ymin, c.ymax), Filled(Common(p, q)));
  }

  lemma SharedCounts(p: PixelBox, q: PixelBox)
    ensures Shared(AsReal(p), AsReal(q)) == |Covered(p) * Covered(q)| as real
  {
    SharedIsArea(p, q);
    CommonCovered(p, q);
    if Filled(Common(p, q)) {
      FilledArea(Common(p, q));
    }
  }

  lemma UnionCounts(p: PixelBox, q: PixelBox)
    requires Filled(p) && Filled(q)
    ensures Together(AsReal(p), AsReal(q)) == |Covered(p) + Covered(q)| as real > 0.0
  {
    SharedCounts(p, q);
    FilledArea(p);
    FilledArea(q);
    UnionSize(Covered(p), Covered(q));
    SubsetSize(Covered(p), Covered(p) + Covered(q));
  }

  /** A ratio times what it was divided by. */
  lemma RatioTimes(i: real, u: real, n: real)
    requires (u == n && 0.0 < u) || i == 0.0
    ensures Ratio(i, u) * n == i
  {
    if i == 0.0 {
      assert Ratio(i, u) == 0.0;
    } else {
      QuotientTimes(i, u);
    }
  }

  lemma OverlapTimes(a: RBox, b: RBox, n: real)
    requires (Together(a, b) == n && 0.0 < n) || Shared(a, b) == 0.0
    ensures Overlap(a, b) * n == Shared(a, b)
  {
    RatioTimes(Shared(a, b), Together(a, b), n);
  }

  lemma EitherCounts(p: PixelBox, q: PixelBox)
    ensures var n, a, b := |Covered(p) + Covered(q)| as real, AsReal(p), AsReal(q);
      (Together(a, b) == n && 0.0 < n) || Shared(a, b) == 0.0
  {
    if Filled(Common(p, q)) {
      UnionCounts(p, q);
    } else {
      SharedIsArea(p, q);
    }
  }

  /** For boxes with pixel corners, the overlap is the pixels in both over the
      pixels in either. */
  lemma OverlapCounts(p: PixelBox, q: PixelBox)
    ensures Overlap(AsReal(p), AsReal(q)) * |Covered(p) + Covered(q)| as real == |Covered(p) * Covered(q)| as real
  {
    EitherCounts(p, q);
    SharedCounts(p, q);
    OverlapTimes(AsReal(p), AsReal(q), |Covered(p) + Covered(q)| as real);
  }

  /** A proper box overlaps itself fully. */
  lemma OverlapSelf(a: RBox)
    requires Proper(a)
    ensures Overlap(a, a) == 1.0
  {
    AreaBound(a);
    assert Shared(a, a) == Area(a);
    var x := Area(a);
    assert x / x == 1.0;
  }

  predicate Named(n: int, locations: seq<real>) {
    0 <= n && n * 4 + 3 < |locations|
  }

  /** Candidate `n` keeps its box in places 4n .. 4n+3. */
  function BoxAt(locations: seq<real>, n: int): RBox
    requires Named(n, locations)
  {
    RBox(locations[n * 4 + 0], locations[n * 4 + 1], locations[n * 4 + 2], locations[n * 4 + 3])
  }

  /** Boxes clash when they overlap above the threshold. */
  function Overlapping(locations: seq<real>, threshold: real): Clash {
    (n, m) => Named(n, locations) && Named(m, locations)
        && Overlap(BoxAt(locations, n), BoxAt(locations, m)) > threshold
  }

  /** A ranked list: candidate numbers, or -1 where one was suppressed. */
  ghost predicate Ranked(order: seq<int>, locations: seq<real>) {
    forall i :: 0 <= i < |order| ==> order[i] == -1 || Named(order[i], locations)
  }

  /** The overlap test of the loop. */
  method TestOverlap(locations: seq<real>, threshold: real, n: int, m: int) returns (clash: bool)
    requires Named(n, locations) && Named(m, locations)
    ensures clash == Overlapping(locations, threshold)(n, m)
  {
    var iou := Overlap(BoxAt(locations, n), BoxAt(locations, m));
    clash := iou > threshold;
  }

  /** The turn of the candidate at rank `i`; the class test of the inner loop
      repeats the one made before the turn. */
  method SuppressFrom(i: int, validCount: int, locations: seq<real>, order: array<int>, threshold: real,
                      ghost clash: Clash)
    requires 0 <= i < validCount <= order.Length && order[i] != -1
    requires Ranked(order[..validCount], locations) && clash == Overlapping(locations, threshold)
    modifies order
    ensures order[..validCount] == Knocked(old(order[..validCount]), i, validCount, clash)
    ensures order[validCount..] == old(order[validCount..])
    ensures Ranked(order[..validCount], locations)
  {
    var n := order[i];
    ghost var start := order[..validCount];
    for j := i + 1 to validCount
      invariant order[validCount..] == old(order[validCount..])
      invariant order[..validCount] == Knocked(start, i, j, clash)
    {
      var m := order[j];
      assert m == Knocked(start, i, j, clash)[j..][0] == start[j];
      if m == -1 {
        continue;
      }
      assert Named(start[i], locations) && Named(start[j], locations);
      var hit := TestOverlap(locations, threshold, n, m);
      if hit {
        order[j] := -1;
      }
    }
  }

  /** nms(): suppress in place among the first `validCount` ranks. */
  method SuppressInPlace(validCount: int, locations: seq<real>, classIds: seq<int>, order: array<int>, filterId: int,
                         threshold: real)
    requires 0 <= validCount <= order.Length && validCount <= |classIds|
    requires Ranked(order[..validCount], locations)
    modifies order
    ensures order[..validCount] == Pass(old(order[..validCount]), 0, classIds, filterId,
                                        Overlapping(locations, threshold))
    ensures order[validCount..] == old(order[validCount..])
  {
    ghost var clash := Overlapping(locations, threshold);
    ghost var before := order[..validCount];
    for i := 0 to validCount
      invariant order[validCount..] == old(order[validCount..])
      invariant Ranked(order[..validCount], locations)
      invariant Pass(order[..validCount], i, classIds, filterId, clash) == Pass(before, 0, classIds, filterId, clash)
    {
      if order[i] == -1 || classIds[i] != filterId {
        continue;
      }
      SuppressFrom(i, validCount, locations, order, threshold, clash);
    }
  }
}
