/** Decoding one anchor: the distribution-focal-loss sides, the int8 confidence
    threshold, and the mapping between model and camera pixels.  Floats are
    reals; a side whose weights all underflow is `None`, the source's 0/0. */
module BoxDecode {
  import opened Nms
  import opened RealFacts
  import opened Options

  /** C's conversion of a float to an integer. */
  function Trunc(x: real): int {
    if x >= 0.0 then x.Floor else -((-x).Floor)
  }

  lemma TruncBounds(x: real)
    requires 0.0 <= x
    ensures 0 <= Trunc(x) && Trunc(x) as real <= x < Trunc(x) as real + 1.0
  {
  }

  // ---- fast_expf ----

  function PowerOfTwo(n: int): (r: real)
    ensures r > 0.0
    decreases if n < 0 then -n else n
  {
    if n == 0 then 1.0 else if n > 0 then 2.0 * PowerOfTwo(n - 1) else PowerOfTwo(n + 1) / 2.0
  }

  /** The positive float with the given exponent and fraction bits: up to the
      smallest normal exponent in steps of 2^-149, from there on each exponent
      is twice the one before. */
  function FloatOf(exponent: nat, fraction: int): (r: real)
    ensures 0 <= fraction && (exponent == 0 ==> 0 < fraction) ==> r > 0.0
  {
    if exponent == 0 then Steps(fraction)
    else if exponent == 1 then Steps(0x80_0000 + fraction)
    else 2.0 * FloatOf(exponent - 1, fraction)
  }

  function Steps(n: int): (r: real)
    ensures 0 < n ==> r > 0.0
  {
    ProductSign(n as real, PowerOfTwo(-149));
    n as real * PowerOfTwo(-149)
  }

  lemma ProductSign(a: real, b: real)
    requires 0.0 < b
    ensures 0.0 < a ==> 0.0 < a * b
  {
  }

  /** The float whose bits read as the positive integer `i`. */
  function FloatOfBits(i: int): (r: real)
    requires i > 0
    ensures r > 0.0
  {
    FloatOf(i / 0x80_0000, i % 0x80_0000)
  }

  const BIAS := 1065353216

  function ExpBits(x: real): int {
    Trunc(12102203.0 * x) + BIAS
  }

  /** Schraudolph's approximation, bit for bit. */
  function FastExp(x: real): (r: real)
    ensures r >= 0.0
    ensures r > 0.0 <==> ExpBits(x) > 0
  {
    if ExpBits(x) > 0 then FloatOfBits(ExpBits(x)) else 0.0
  }

  lemma FastExpUnderflowsBelow(x: real, y: real)
    requires x <= y && FastExp(x) > 0.0
    ensures FastExp(y) > 0.0
  {
    assert 12102203.0 * x <= 12102203.0 * y;
  }

  // ---- decode_box4 ----

  predicate Int8(q: int) {
    -128 <= q <= 127
  }

  /** The 4 x 16 distribution values of one anchor. */
  predicate Anchor(x: seq<int>) {
    |x| == 64 && forall i :: 0 <= i < 64 ==> Int8(x[i])
  }

  function Weight(q: int, top: int, scale: real): real {
    FastExp((q - top) as real * scale)
  }

  /** The weights of one side's bins. */
  function Weights(side: seq<int>, top: int, scale: real): (r: seq<real>)
    ensures |r| == |side| && forall k :: 0 <= k < |r| ==> r[k] == Weight(side[k], top, scale)
    ensures NonNegative(r)
  {
    seq(|side|, k requires 0 <= k < |side| => Weight(side[k], top, scale))
  }

  ghost predicate NonNegative(ws: seq<real>) {
    forall k :: 0 <= k < |ws| ==> ws[k] >= 0.0
  }

  function Sum(ws: seq<real>): real {
    if ws == [] then 0.0 else Sum(ws[..|ws| - 1]) + ws[|ws| - 1]
  }

  function Moment(ws: seq<real>): real {
    if ws == [] then 0.0 else Moment(ws[..|ws| - 1]) + (|ws| - 1) as real * ws[|ws| - 1]
  }

  /** The weighted mean of the indices, unless every weight is 0. */
  function Mean(ws: seq<real>): Option<real> {
    if Sum(ws) == 0.0 then None else Some(Moment(ws) / Sum(ws))
  }

  /** The expected bin of one side, unless every weight underflowed. */
  function Side(side: seq<int>, top: int, scale: real): Option<real> {
    Mean(Weights(side, top, scale))
  }

  function MaxOf(x: seq<int>): (m: int)
    requires x != []
    ensures m in x && forall i :: 0 <= i < |x| ==> x[i] <= m
  {
    if |x| == 1 then x[0]
    else
      var m := MaxOf(x[..|x| - 1]);
      assert forall i :: 0 <= i < |x| - 1 ==> x[..|x| - 1][i] == x[i];
      if x[|x| - 1] > m then x[|x| - 1] else m
  }

  /** Side s of an anchor: 16 bins, weighted against the maximum of all 64. */
  function SideOf(x: seq<int>, s: int, scale: real): Option<real>
    requires |x| == 64 && 0 <= s < 4
  {
    Side(x[16 * s..16 * s + 16], MaxOf(x), scale)
  }

  /** The maximum over all 64 values. */
  method ScanMax(x: seq<int>) returns (xMax: int)
    requires x != []
    ensures xMax == MaxOf(x)
  {
    xMax := x[0];
    for i := 1 to |x|
      invariant xMax == MaxOf(x[..i])
    {
      assert x[..i + 1][..i] == x[..i];
      if x[i] > xMax {
        xMax := x[i];
      }
    }
    assert x[..|x|] == x;
  }

  lemma SumsNext(ws: seq<real>, k: nat)
    requires k < |ws|
    ensures Sum(ws[..k + 1]) == Sum(ws[..k]) + ws[k]
    ensures Moment(ws[..k + 1]) == Moment(ws[..k]) + k as real * ws[k]
  {
    assert ws[..k + 1][..k] == ws[..k];
  }

  /** The body of the bin loop. */
  method AddBin(ghost ws: seq<real>, k: nat, e: real, sum: real, output: real) returns (sum': real, output': real)
    requires k < |ws| && e == ws[k] && sum == Sum(ws[..k]) && output == Moment(ws[..k])
    ensures sum' == Sum(ws[..k + 1]) && output' == Moment(ws[..k + 1])
  {
    SumsNext(ws, k);
    sum' := sum + e;
    output' := output + k as real * e;
  }

  /** One side's weights summed, and their first moment, in one pass. */
  method ScanSide(side: seq<int>, xMax: int, scale: real) returns (sum: real, output: real)
    ensures var ws := Weights(side, xMax, scale); sum == Sum(ws) && output == Moment(ws)
  {
    sum, output := 0.0, 0.0;
    ghost var ws := Weights(side, xMax, scale);
    for k := 0 to |side|
      invariant sum == Sum(ws[..k]) && output == Moment(ws[..k])
    {
      var e := Weight(side[k], xMax, scale);
      sum, output := AddBin(ws, k, e, sum, output);
    }
    assert ws[..|side|] == ws;
  }

  method DecodeSide(side: seq<int>, xMax: int, scale: real) returns (out: Option<real>)
    ensures out == Side(side, xMax, scale)
  {
    var sum, output := ScanSide(side, xMax, scale);
    out := if sum == 0.0 then None else Some(output / sum);
  }

  /** decode_box4: the four sides share the maximum of the whole anchor. */
  method DecodeBox4(x: seq<int>, scale: real) returns (out4: seq<Option<real>>)
    requires |x| == 64
    ensures |out4| == 4 && forall s :: 0 <= s < 4 ==> out4[s] == SideOf(x, s, scale)
  {
    var xMax := ScanMax(x);
    out4 := [];
    for s := 0 to 4
      invariant |out4| == s
      invariant forall r :: 0 <= r < s ==> out4[r] == SideOf(x, r, scale)
    {
      var side := DecodeSide(x[16 * s..16 * s + 16], xMax, scale);
      out4 := out4 + [side];
    }
  }

  lemma AddMoment(m: real, w: real, k: real, e: real, last: real)
    requires 0.0 <= m <= last * w && 0.0 <= k <= last && 0.0 <= e
    ensures 0.0 <= m + k * e <= last * (w + e)
  {
    ProductNonNegative(k, e);
    TimesMonotone(k, last, e);
  }

  lemma {:induction false} MomentBounds(ws: seq<real>, last: real)
    requires NonNegative(ws) && |ws| as real <= last + 1.0
    ensures 0.0 <= Sum(ws) && 0.0 <= Moment(ws) <= last * Sum(ws)
  {
    if ws != [] {
      var front := ws[..|ws| - 1];
      MomentBounds(front, last);
      AddMoment(Moment(front), Sum(front), (|ws| - 1) as real, ws[|ws| - 1], last);
    }
  }

  /** A defined side of 16 bins lies in [0, 15]. */
  lemma SideInRange(side: seq<int>, top: int, scale: real)
    requires |side| == 16 && Side(side, top, scale).Some?
    ensures 0.0 <= Side(side, top, scale).value <= 15.0
  {
    var ws := Weights(side, top, scale);
    MomentBounds(ws, 15.0);
    QuotientBetween(Moment(ws), Sum(ws), 0.0, 15.0);
  }

  /** A side is undefined exactly when all its weights underflowed. */
  lemma {:induction false} SumZeroIff(ws: seq<real>)
    requires NonNegative(ws)
    ensures Sum(ws) >= 0.0
    ensures Sum(ws) == 0.0 <==> forall k :: 0 <= k < |ws| ==> ws[k] == 0.0
  {
    if ws != [] {
      var front := ws[..|ws| - 1];
      SumZeroIff(front);
      assert forall k :: 0 <= k < |front| ==> ws[k] == front[k];
    }
  }

  ghost predicate AllSidesDefined(x: seq<int>, scale: real)
    requires |x| == 64
  {
    forall s :: 0 <= s < 4 ==> SideOf(x, s, scale).Some?
  }

  /** The four decoded sides of an anchor. */
  function Sides(x: seq<int>, scale: real): (d: seq<real>)
    requires |x| == 64 && AllSidesDefined(x, scale)
    ensures |d| == 4 && forall s :: 0 <= s < 4 ==> d[s] == SideOf(x, s, scale).value
  {
    seq(4, s requires 0 <= s < 4 && |x| == 64 && AllSidesDefined(x, scale) => SideOf(x, s, scale).value)
  }

  lemma SideOfInRange(x: seq<int>, s: int, scale: real)
    requires |x| == 64 && 0 <= s < 4 && SideOf(x, s, scale).Some?
    ensures 0.0 <= SideOf(x, s, scale).value <= 15.0
  {
    SideInRange(x[16 * s..16 * s + 16], MaxOf(x), scale);
  }

  /** Every defined anchor decodes to four distances between 0 and 15 cells. */
  lemma SidesInRange(x: seq<int>, scale: real)
    requires |x| == 64 && AllSidesDefined(x, scale)
    ensures forall s :: 0 <= s < 4 ==> 0.0 <= Sides(x, scale)[s] <= 15.0
  {
    SideOfInRange(x, 0, scale);
    SideOfInRange(x, 1, scale);
    SideOfInRange(x, 2, scale);
    SideOfInRange(x, 3, scale);
  }

  /** fast_expf does not underflow anywhere in the int8 range. */
  predicate ScaleFits(scale: real) {
    0.0 < scale && FastExp(-255.0 * scale) > 0.0
  }

  lemma FittingWeight(q: int, top: int, scale: real)
    requires Int8(q) && Int8(top) && ScaleFits(scale)
    ensures Weight(q, top, scale) > 0.0
  {
    PositiveFrom(-255.0, (q - top) as real, scale);
  }

  lemma PositiveFrom(low: real, d: real, scale: real)
    requires low <= d && 0.0 < scale && FastExp(low * scale) > 0.0
    ensures FastExp(d * scale) > 0.0
  {
    TimesMonotone(low, d, scale);
    FastExpUnderflowsBelow(low * scale, d * scale);
  }

  lemma FittingScaleDefines(x: seq<int>, scale: real)
    requires Anchor(x) && ScaleFits(scale)
    ensures AllSidesDefined(x, scale)
  {
    forall s | 0 <= s < 4
      ensures SideOf(x, s, scale).Some?
    {
      var side, top := x[16 * s..16 * s + 16], MaxOf(x);
      FittingWeight(side[0], top, scale);
      SumZeroIff(Weights(side, top, scale));
    }
  }

  /** The anchor whose maximum sits in side 0 and whose side 1 is at the bottom of the range. */
  function Extreme(): (x: seq<int>)
    ensures Anchor(x) && x[0] == 127 && forall k :: 16 <= k < 64 ==> x[k] == -128
  {
    seq(64, i => if i == 0 then 127 else -128)
  }

  /** No int8 anchor ever divides 0 by 0, exactly when 255 * scale stays below
      the underflow point of fast_expf. */
  lemma DecodeDefinedIff(scale: real)
    requires 0.0 < scale
    ensures (forall x :: Anchor(x) ==> AllSidesDefined(x, scale)) <==> ScaleFits(scale)
  {
    if ScaleFits(scale) {
      forall x | Anchor(x)
        ensures AllSidesDefined(x, scale)
      {
        FittingScaleDefines(x, scale);
      }
    } else {
      var x := Extreme();
      var side := x[16..32];
      assert MaxOf(x) == 127;
      assert forall k :: 0 <= k < |side| ==> side[k] == x[16 + k] == -128;
      SumZeroIff(Weights(side, 127, scale));
      assert x[16 * 1..16 * 1 + 16] == side;
      assert SideOf(x, 1, scale).None?;
      assert !AllSidesDefined(x, scale);
    }
  }

  // ---- the confidence threshold in int8 ----

  function Clip(v: real, lo: real, hi: real): int {
    Trunc(if v <= lo then lo else if v >= hi then hi else v)
  }

  /** qnt_f32_to_affine of the threshold's logit. */
  function Quantised(logit: real, zp: int, scale: real): int
    requires scale > 0.0
  {
    Clip(logit / scale + zp as real, -128.0, 127.0)
  }

  function Dequantised(q: int, zp: int, scale: real): real {
    (q as real - zp as real) * scale
  }

  /** The acceptance test of process(): the running maximum starts at 0. */
  predicate Accepts(q: int, thres: int) {
    q >= thres && q > 0
  }

  /** The test is the plain threshold test on every int8 value exactly when the
      quantised threshold is positive; below that, confident cells are dropped. */
  lemma AcceptsIff(thres: int)
    requires Int8(thres)
    ensures (forall q :: Int8(q) ==> (Accepts(q, thres) <==> q >= thres)) <==> thres > 0
  {
    if thres <= 0 {
      assert Int8(thres) && thres >= thres && !Accepts(thres, thres);
    }
  }

  /** A value whose dequantised logit reaches the threshold passes the int8 test. */
  lemma ConfidentPasses(q: int, logit: real, zp: int, scale: real)
    requires 0.0 < scale && Int8(q) && Dequantised(q, zp, scale) >= logit
    ensures q >= Quantised(logit, zp, scale)
  {
    var v, d := logit / scale, q as real - zp as real;
    assert v * scale == logit;
    if d < v {
      TimesStrict(d, v, scale);
    }
  }

  /** The value one step above q reaches beyond the threshold's logit. */
  predicate NearlyConfident(q: int, logit: real, zp: int, scale: real) {
    Dequantised(q + 1, zp, scale) > logit
  }

  lemma BeyondIff(q: int, logit: real, zp: int, scale: real)
    requires 0.0 < scale
    ensures NearlyConfident(q, logit, zp, scale) <==> logit / scale + zp as real < (q + 1) as real
  {
    var v, d := logit / scale, (q + 1) as real - zp as real;
    assert v * scale == logit;
    if v < d {
      TimesStrict(v, d, scale);
    } else {
      TimesMonotone(d, v, scale);
    }
  }

  /** Every int8 value that passes misses the threshold by less than one
      quantisation step exactly when the quantised threshold is not cut off at
      the top of the range. */
  lemma PassingIsNearlyConfidentIff(logit: real, zp: int, scale: real)
    requires 0.0 < scale
    ensures (forall q :: Int8(q) && q >= Quantised(logit, zp, scale) ==> NearlyConfident(q, logit, zp, scale)) <==>
            logit / scale + zp as real < 128.0
  {
    var v := logit / scale + zp as real;
    if v < 128.0 {
      forall q | Int8(q) && q >= Quantised(logit, zp, scale)
        ensures NearlyConfident(q, logit, zp, scale)
      {
        BeyondIff(q, logit, zp, scale);
      }
    } else {
      BeyondIff(127, logit, zp, scale);
      assert Int8(127) && 127 >= Quantised(logit, zp, scale);
    }
  }

  // ---- boxes and pixels ----

  /** Grid units to model pixels. */
  function Pixels(x: real, stride: int): real {
    x * stride as real
  }

  lemma PixelsMonotone(x: real, y: real, stride: int)
    requires x <= y && 0 <= stride
    ensures Pixels(x, stride) <= Pixels(y, stride)
  {
    TimesMonotone(x, y, stride as real);
  }

  /** One anchor's box in model pixels. */
  function AnchorBox(i: int, j: int, d: seq<real>, stride: int): RBox
    requires |d| == 4
  {
    RBox(Pixels(j as real + 0.5 - d[0], stride), Pixels(i as real + 0.5 - d[1], stride),
         Pixels(j as real + 0.5 + d[2], stride), Pixels(i as real + 0.5 + d[3], stride))
  }

  lemma AnchorBoxProper(i: int, j: int, d: seq<real>, stride: int)
    requires |d| == 4 && stride > 0 && forall s :: 0 <= s < 4 ==> d[s] >= 0.0
    ensures Proper(AnchorBox(i, j, d, stride))
  {
    PixelsMonotone(j as real + 0.5 - d[0], j as real + 0.5 + d[2], stride);
    PixelsMonotone(i as real + 0.5 - d[1], i as real + 0.5 + d[3], stride);
  }

  /** The box reaches l, t, r and b beyond the point (cx, cy). */
  ghost predicate Around(box: RBox, cx: real, cy: real, l: real, t: real, r: real, b: real) {
    cx - box.xmin == l && cy - box.ymin == t && box.xmax - cx == r && box.ymax - cy == b
  }

  lemma PixelsApart(x: real, y: real, d: real, stride: int)
    requires x - y == d
    ensures Pixels(x, stride) - Pixels(y, stride) == stride as real * d
  {
    assert x * stride as real == (y + d) * stride as real == y * stride as real + d * stride as real;
  }

  /** From the centre of cell (i, j) the box reaches d[0] to the left, d[1] up,
      d[2] to the right and d[3] down, all in cells of u pixels. */
  ghost predicate CentredOn(box: RBox, i: int, j: int, u: real, d: seq<real>)
    requires |d| == 4
  {
    Around(box, u * (j as real + 0.5), u * (i as real + 0.5), u * d[0], u * d[1], u * d[2], u * d[3])
  }

  /** The four sides are read back from the box about its cell's centre. */
  lemma AnchorBoxReadsBack(i: int, j: int, d: seq<real>, stride: int)
    requires |d| == 4
    ensures CentredOn(AnchorBox(i, j, d, stride), i, j, stride as real, d)
  {
    var x, y := j as real + 0.5, i as real + 0.5;
    PixelsApart(x, x - d[0], d[0], stride);
    PixelsApart(y, y - d[1], d[1], stride);
    PixelsApart(x + d[2], x, d[2], stride);
    PixelsApart(y + d[3], y, d[3], stride);
    PixelsApart(x, 0.0, x, stride);
    PixelsApart(y, 0.0, y, stride);
    assert Pixels(0.0, stride) == 0.0;
  }

  function ClampTo(v: real, lo: int, hi: int): int {
    if v > lo as real then (if v < hi as real then Trunc(v) else hi) else lo
  }

  /** A model coordinate clamped to the model and scaled back to the camera. */
  function ToCamera(v: real, limit: int, scale: real): int
    requires scale > 0.0
  {
    Trunc(ClampTo(v, 0, limit) as real / scale)
  }

  /** Emitted coordinates stay inside the camera image and keep their order. */
  lemma ToCameraOrdered(u: real, v: real, limit: int, scale: real)
    requires u <= v && 0 <= limit && scale > 0.0
    ensures 0 <= ToCamera(u, limit, scale) <= ToCamera(v, limit, scale)
    ensures ToCamera(v, limit, scale) as real <= limit as real / scale
  {
    var cu, cv := ClampTo(u, 0, limit) as real, ClampTo(v, 0, limit) as real;
    DivideMonotone(0.0, cu, scale);
    DivideMonotone(cu, cv, scale);
    DivideMonotone(cv, limit as real, scale);
  }

  function Clamped(v: real, limit: int): real {
    if v <= 0.0 then 0.0 else if v >= limit as real then limit as real else v
  }

  /** p is the camera pixel of the model coordinate v: v cut to the model and
      scaled back, then cut toward zero, off by at most the model pixel lost. */
  ghost predicate PixelOf(p: int, v: real, limit: int, scale: real)
    requires scale > 0.0
  {
    p as real <= Clamped(v, limit) / scale && (Clamped(v, limit) - 1.0) / scale < p as real + 1.0
  }

  lemma ToCameraNear(v: real, limit: int, scale: real)
    requires 0 <= limit && scale > 0.0
    ensures PixelOf(ToCamera(v, limit, scale), v, limit, scale)
  {
    var t := ClampTo(v, 0, limit) as real;
    assert t <= Clamped(v, limit) <= t + 1.0;
    DivideMonotone(0.0, t, scale);
    DivideMonotone(t, Clamped(v, limit), scale);
    DivideMonotone(Clamped(v, limit) - 1.0, t, scale);
    TruncBounds(t / scale);
  }

  /** Both sides of the source, scaled, fit a square model. */
  ghost predicate FitsSquare(scale: real, srcW: int, srcH: int, model: int) {
    0.0 < scale && scale * srcW as real <= model as real && scale * srcH as real <= model as real
  }

  /** rga_letterbox_rgb: one scale for both axes, chosen by the longer side. */
  method Letterbox(srcW: int, srcH: int, modelW: int, modelH: int) returns (scale: real, resizeW: int, resizeH: int)
    requires srcW > 0 && srcH > 0 && modelW > 0 && modelH > 0
    ensures scale == if srcW > srcH then modelW as real / srcW as real else modelH as real / srcH as real
    ensures modelW == modelH ==>
              FitsSquare(scale, srcW, srcH, modelW) && 0 <= resizeW <= modelW && 0 <= resizeH <= modelH
    ensures if srcW > srcH then resizeW == modelW else resizeH == modelH
    ensures resizeW as real <= scale * srcW as real < resizeW as real + 1.0
    ensures resizeH as real <= scale * srcH as real < resizeH as real + 1.0
  {
    if srcW > srcH {
      scale := modelW as real / srcW as real;
      LongerSideFits(srcW, srcH, modelW, scale);
      resizeW := modelW;
      resizeH := Trunc(scale * srcH as real);
    } else {
      scale := modelH as real / srcH as real;
      LongerSideFits(srcH, srcW, modelH, scale);
      resizeH := modelH;
      resizeW := Trunc(scale * srcW as real);
    }
  }

  lemma LongerSideFits(longer: int, shorter: int, model: int, s: real)
    requires 0 < shorter <= longer && 0 < model && s == model as real / longer as real
    ensures 0.0 < s && s * longer as real == model as real && 0.0 <= s * shorter as real <= model as real
  {
    assert s * longer as real == model as real;
    assert s > 0.0;
    TimesMonotone(shorter as real, longer as real, s);
  }

  /** Truncating v, scaling back and truncating again, against v / s. */
  lemma BackAndForth(x: real, s: real, t: real)
    requires 0.0 < s && x * s - 1.0 < t <= x * s && 0.0 <= t
    ensures 0.0 <= t / s <= x && x - 1.0 / s < t / s
  {
    var b, r := t / s, 1.0 / s;
    assert b * s == t && r * s == 1.0;
    if b > x {
      TimesStrict(x, b, s);
    }
    if b <= x - r {
      TimesMonotone(b, x - r, s);
      assert (x - r) * s == x * s - 1.0;
    }
    DivideMonotone(0.0, t, s);
  }

  lemma ClampInside(v: real, limit: int)
    requires 0.0 <= v <= limit as real
    ensures 0 <= ClampTo(v, 0, limit) && v - 1.0 < ClampTo(v, 0, limit) as real <= v
  {
  }

  lemma PixelRoundTrip(x: int, s: real, model: int)
    requires 0 <= x && 0.0 < s && x as real * s <= model as real
    ensures x as real - 1.0 / s - 1.0 < ToCamera(x as real * s, model, s) as real <= x as real
  {
    var v := x as real * s;
    TimesMonotone(0.0, x as real, s);
    ClampInside(v, model);
    var t := ClampTo(v, 0, model) as real;
    BackAndForth(x as real, s, t);
    TruncBounds(t / s);
  }

  /** A camera coordinate sent through the letterbox and back never grows and
      loses less than 1/scale + 1 pixels; the model is square. */
  lemma LetterboxRoundTrip(x: int, scale: real, srcW: int, srcH: int, model: int)
    requires FitsSquare(scale, srcW, srcH, model) && (0 <= x <= srcW || 0 <= x <= srcH)
    ensures x as real - 1.0 / scale - 1.0 < ToCamera(x as real * scale, model, scale) as real <= x as real
  {
    TimesMonotone(x as real, if 0 <= x <= srcW then srcW as real else srcH as real, scale);
    PixelRoundTrip(x, scale, model);
  }
}
