/** From the three int8 output tensors to the emitted detections. */
module PostProcess {
  import opened RankSort
  import opened Suppression
  import opened Sequences
  import opened Nms
  import opened BoxDecode

  const TOP_K := 200
  const OBJ_NUMB_MAX_SIZE := 64
  const CELL := 65                // one class score and 4 x 16 distribution values

  /** One output tensor with its grid, stride and quantisation. */
  datatype Head = Head(input: seq<int>, gridH: nat, gridW: nat, stride: int, zp: int, scale: real)

  ghost predicate GoodHead(h: Head) {
    && |h.input| == h.gridH * h.gridW * CELL
    && (forall i :: 0 <= i < |h.input| ==> Int8(h.input[i]))
    && h.stride > 0 && ScaleFits(h.scale)
  }

  /** What process() keeps of an accepted cell. */
  datatype Cand = Cand(box: RBox, score: real)

  datatype Detection = Detection(left: int, top: int, right: int, bottom: int, prop: real)

  lemma CellInside(h: Head, i: int, j: int)
    requires GoodHead(h) && 0 <= i < h.gridH && 0 <= j < h.gridW
    ensures 0 <= (i * h.gridW + j) * CELL && (i * h.gridW + j) * CELL + CELL <= |h.input|
  {
    assert i * h.gridW + j + 1 <= (i + 1) * h.gridW <= h.gridH * h.gridW;
  }

  /** The 65 values of cell (i, j): class score first, then the distributions. */
  function CellAt(h: Head, i: int, j: int): (cell: seq<int>)
    requires GoodHead(h) && 0 <= i < h.gridH && 0 <= j < h.gridW
    ensures |cell| == CELL && Anchor(cell[1..])
  {
    CellInside(h, i, j);
    h.input[(i * h.gridW + j) * CELL..(i * h.gridW + j) * CELL + CELL]
  }

  /** An accepted cell as a candidate. */
  function CandOf(cell: seq<int>, i: int, j: int, h: Head, sigmoid: real -> real): (c: Cand)
    requires |cell| == CELL && Anchor(cell[1..]) && h.stride > 0 && ScaleFits(h.scale)
  {
    FittingScaleDefines(cell[1..], h.scale);
    Cand(AnchorBox(i, j, Sides(cell[1..], h.scale), h.stride), sigmoid(Dequantised(cell[0], h.zp, h.scale)))
  }

  lemma CandProper(cell: seq<int>, i: int, j: int, h: Head, sigmoid: real -> real)
    requires |cell| == CELL && Anchor(cell[1..]) && h.stride > 0 && ScaleFits(h.scale)
    ensures Proper(CandOf(cell, i, j, h, sigmoid).box)
  {
    FittingScaleDefines(cell[1..], h.scale);
    SidesInRange(cell[1..], h.scale);
    AnchorBoxProper(i, j, Sides(cell[1..], h.scale), h.stride);
  }

  /** The cells tile the input: value p is value p % 65 of cell p / 65, counted row by row. */
  lemma CellsCoverInput(h: Head, p: nat)
    requires GoodHead(h) && p < |h.input|
    ensures var n := p / CELL;
      h.gridW > 0 && n / h.gridW < h.gridH && h.input[p] == CellAt(h, n / h.gridW, n % h.gridW)[p % CELL]
  {
    var n := p / CELL;
    RowOf(n, h.gridH, h.gridW);
    assert (n / h.gridW * h.gridW + n % h.gridW) * CELL + p % CELL == p;
  }

  lemma RowOf(n: nat, rows: nat, width: nat)
    requires n < rows * width
    ensures 0 < width && n / width < rows && n / width * width + n % width == n
  {
    assert width == 0 ==> rows * width == 0;
    RowBefore(n / width, rows, width, n);
  }

  lemma RowBefore(row: nat, rows: nat, width: nat, n: nat)
    requires row * width <= n < rows * width
    ensures row < rows
  {
    assert row >= rows ==> row * width >= rows * width;
  }

  /** The candidate of cell (i, j), if its score passes. */
  function CellCands(h: Head, i: int, j: int, thres: int, sigmoid: real -> real): (cs: seq<Cand>)
    requires GoodHead(h) && 0 <= i < h.gridH && 0 <= j < h.gridW
    ensures AllProper(cs)
  {
    var cell := CellAt(h, i, j);
    if Accepts(cell[0], thres) then
      CandProper(cell, i, j, h, sigmoid);
      [CandOf(cell, i, j, h, sigmoid)]
    else []
  }

  ghost predicate AllProper(cs: seq<Cand>) {
    forall k :: 0 <= k < |cs| ==> Proper(cs[k].box)
  }

  /** Candidates of the first n cells of row i, then of the first m rows. */
  function RowCands(h: Head, i: int, n: nat, thres: int, sigmoid: real -> real): (cs: seq<Cand>)
    requires GoodHead(h) && 0 <= i < h.gridH && n <= h.gridW
    ensures AllProper(cs)
  {
    if n == 0 then [] else RowCands(h, i, n - 1, thres, sigmoid) + CellCands(h, i, n - 1, thres, sigmoid)
  }

  function GridCands(h: Head, m: nat, thres: int, sigmoid: real -> real): (cs: seq<Cand>)
    requires GoodHead(h) && m <= h.gridH
    ensures AllProper(cs)
  {
    if m == 0 then [] else GridCands(h, m - 1, thres, sigmoid) + RowCands(h, m - 1, h.gridW, thres, sigmoid)
  }

  function HeadCands(h: Head, logit: real, sigmoid: real -> real): (cs: seq<Cand>)
    requires GoodHead(h)
    ensures AllProper(cs)
  {
    GridCands(h, h.gridH, Quantised(logit, h.zp, h.scale), sigmoid)
  }

  // ---- the three vectors the candidates are kept in ----

  function Corners(b: RBox): seq<real> {
    [b.xmin, b.ymin, b.xmax, b.ymax]
  }

  function Flat(cs: seq<Cand>): (r: seq<real>)
    ensures |r| == 4 * |cs|
  {
    if cs == [] then [] else Flat(cs[..|cs| - 1]) + Corners(cs[|cs| - 1].box)
  }

  function Scores(cs: seq<Cand>): (r: seq<real>)
    ensures |r| == |cs| && forall k :: 0 <= k < |r| ==> r[k] == cs[k].score
  {
    seq(|cs|, k requires 0 <= k < |cs| => cs[k].score)
  }

  lemma {:induction false} FlatAppend(a: seq<Cand>, b: seq<Cand>)
    ensures Flat(a + b) == Flat(a) + Flat(b)
  {
    if b == [] {
      assert a + b == a;
    } else {
      assert (a + b)[..|a + b| - 1] == a + b[..|b| - 1];
      FlatAppend(a, b[..|b| - 1]);
    }
  }

  /** Candidate n's box is found at places 4n .. 4n+3. */
  lemma {:induction false} FlatAt(cs: seq<Cand>, n: nat)
    requires n < |cs|
    ensures Named(n, Flat(cs)) && BoxAt(Flat(cs), n) == cs[n].box
  {
    if n < |cs| - 1 {
      FlatAt(cs[..|cs| - 1], n);
    }
  }

  /** filterBoxes, objProbs and classId hold the candidates `cs`. */
  ghost predicate Holds(boxes: seq<real>, probs: seq<real>, classes: seq<int>, cs: seq<Cand>) {
    boxes == Flat(cs) && probs == Scores(cs) && |classes| == |cs| && OneClass(classes, 0)
  }

  lemma HoldsOne(boxes: seq<real>, probs: seq<real>, classes: seq<int>, cs: seq<Cand>, c: Cand)
    requires Holds(boxes, probs, classes, cs)
    ensures Holds(boxes + Corners(c.box), probs + [c.score], classes + [0], cs + [c])
  {
    FlatAppend(cs, [c]);
    assert Flat([c]) == Flat([]) + Corners(c.box);
  }

  /** An accepted cell's box and score. */
  method DecodeCell(cell: seq<int>, i: int, j: int, h: Head, sigmoid: real -> real) returns (box: RBox, score: real)
    requires |cell| == CELL && Anchor(cell[1..]) && h.stride > 0 && ScaleFits(h.scale)
    ensures Cand(box, score) == CandOf(cell, i, j, h, sigmoid)
    ensures AllSidesDefined(cell[1..], h.scale) && CentredOn(box, i, j, h.stride as real, Sides(cell[1..], h.scale))
  {
    FittingScaleDefines(cell[1..], h.scale);
    var out4 := DecodeBox4(cell[1..], h.scale);
    var dfl := [out4[0].value, out4[1].value, out4[2].value, out4[3].value];
    assert dfl == Sides(cell[1..], h.scale);
    box := AnchorBox(i, j, dfl, h.stride);
    AnchorBoxReadsBack(i, j, dfl, h.stride);
    score := sigmoid(Dequantised(cell[0], h.zp, h.scale));
  }

  /** One cell of process(). */
  method ProcessCell(h: Head, i: int, j: int, thres: int, sigmoid: real -> real,
                     boxes: seq<real>, probs: seq<real>, classes: seq<int>, ghost cs: seq<Cand>)
    returns (boxes': seq<real>, probs': seq<real>, classes': seq<int>)
    requires GoodHead(h) && 0 <= i < h.gridH && 0 <= j < h.gridW && Holds(boxes, probs, classes, cs)
    ensures Holds(boxes', probs', classes', cs + CellCands(h, i, j, thres, sigmoid))
  {
    boxes', probs', classes' := boxes, probs, classes;
    var cell := CellAt(h, i, j);
    var maxClassProbs, maxClassId := 0, -1;
    var prob := cell[0];
    if prob >= thres && prob > maxClassProbs {
      maxClassId := 0;
      maxClassProbs := prob;
    }
    if maxClassId >= 0 {
      var box, score := DecodeCell(cell, i, j, h, sigmoid);
      boxes' := boxes + [box.xmin, box.ymin, box.xmax, box.ymax];
      probs' := probs + [score];
      classes' := classes + [maxClassId];
      HoldsOne(boxes, probs, classes, cs, Cand(box, score));
    } else {
      assert cs + [] == cs;
    }
  }

  lemma RowStep(cs: seq<Cand>, h: Head, i: int, j: nat, thres: int, sigmoid: real -> real)
    requires GoodHead(h) && 0 <= i < h.gridH && j < h.gridW
    ensures cs + RowCands(h, i, j, thres, sigmoid) + CellCands(h, i, j, thres, sigmoid)
         == cs + RowCands(h, i, j + 1, thres, sigmoid)
  {
  }

  lemma GridStep(cs: seq<Cand>, h: Head, i: nat, thres: int, sigmoid: real -> real)
    requires GoodHead(h) && i < h.gridH
    ensures cs + GridCands(h, i, thres, sigmoid) + RowCands(h, i, h.gridW, thres, sigmoid)
         == cs + GridCands(h, i + 1, thres, sigmoid)
  {
  }

  method ProcessRow(h: Head, i: int, thres: int, sigmoid: real -> real,
                    boxes: seq<real>, probs: seq<real>, classes: seq<int>, ghost cs: seq<Cand>)
    returns (boxes': seq<real>, probs': seq<real>, classes': seq<int>)
    requires GoodHead(h) && 0 <= i < h.gridH && Holds(boxes, probs, classes, cs)
    ensures Holds(boxes', probs', classes', cs + RowCands(h, i, h.gridW, thres, sigmoid))
  {
    boxes', probs', classes' := boxes, probs, classes;
    assert cs + RowCands(h, i, 0, thres, sigmoid) == cs;
    for j := 0 to h.gridW
      invariant Holds(boxes', probs', classes', cs + RowCands(h, i, j, thres, sigmoid))
    {
      ghost var acc := cs + RowCands(h, i, j, thres, sigmoid);
      boxes', probs', classes' := ProcessCell(h, i, j, thres, sigmoid, boxes', probs', classes', acc);
      RowStep(cs, h, i, j, thres, sigmoid);
    }
  }

  /** process(): append every accepted cell of one head. */
  method Process(h: Head, logit: real, sigmoid: real -> real,
                 boxes: seq<real>, probs: seq<real>, classes: seq<int>, ghost cs: seq<Cand>)
    returns (boxes': seq<real>, probs': seq<real>, classes': seq<int>)
    requires GoodHead(h) && Holds(boxes, probs, classes, cs)
    ensures Holds(boxes', probs', classes', cs + HeadCands(h, logit, sigmoid))
  {
    var thres := Quantised(logit, h.zp, h.scale);
    boxes', probs', classes' := boxes, probs, classes;
    assert cs + GridCands(h, 0, thres, sigmoid) == cs;
    for i := 0 to h.gridH
      invariant Holds(boxes', probs', classes', cs + GridCands(h, i, thres, sigmoid))
    {
      ghost var acc := cs + GridCands(h, i, thres, sigmoid);
      boxes', probs', classes' := ProcessRow(h, i, thres, sigmoid, boxes', probs', classes', acc);
      GridStep(cs, h, i, thres, sigmoid);
    }
  }

  /** The three heads, coarsest stride last. */
  method Gather(h0: Head, h1: Head, h2: Head, logit: real, sigmoid: real -> real)
    returns (boxes: seq<real>, probs: seq<real>, classes: seq<int>)
    requires GoodHead(h0) && GoodHead(h1) && GoodHead(h2)
    ensures Holds(boxes, probs, classes, Candidates(h0, h1, h2, logit, sigmoid))
  {
    ghost var c0, c1 := HeadCands(h0, logit, sigmoid), HeadCands(h1, logit, sigmoid);
    assert [] + c0 == c0;
    boxes, probs, classes := Process(h0, logit, sigmoid, [], [], [], []);
    boxes, probs, classes := Process(h1, logit, sigmoid, boxes, probs, classes, c0);
    boxes, probs, classes := Process(h2, logit, sigmoid, boxes, probs, classes, c0 + c1);
  }

  // ---- ranking and emission ----

  /** `r` names every candidate once, best score first. */
  ghost predicate IsRanking(r: seq<int>, cs: seq<Cand>) {
    && |r| == |cs|
    && (forall i :: 0 <= i < |r| ==> 0 <= r[i] < |cs|)
    && DistinctInts(r)
    && (forall i, j :: 0 <= i < j < |r| ==> cs[r[i]].score >= cs[r[j]].score)
  }

  function Capped(n: nat, cap: nat): nat {
    if n > cap then cap else n
  }

  /** A candidate in camera pixels. */
  function Detected(c: Cand, modelH: int, modelW: int, scaleW: real, scaleH: real): Detection
    requires scaleW > 0.0 && scaleH > 0.0
  {
    Detection(ToCamera(c.box.xmin, modelW, scaleW), ToCamera(c.box.ymin, modelH, scaleH),
              ToCamera(c.box.xmax, modelW, scaleW), ToCamera(c.box.ymax, modelH, scaleH), c.score)
  }

  predicate NamesIn(names: seq<int>, cs: seq<Cand>) {
    forall k :: 0 <= k < |names| ==> 0 <= names[k] < |cs|
  }

  /** The first at most `cap` of the named candidates, each with its own box and score. */
  function Emitted(names: seq<int>, cap: nat, cs: seq<Cand>, modelH: int, modelW: int, scaleW: real,
                   scaleH: real): seq<Detection>
    requires scaleW > 0.0 && scaleH > 0.0 && NamesIn(names, cs)
  {
    seq(Capped(|names|, cap), k requires 0 <= k < |names| && NamesIn(names, cs) =>
      Detected(cs[names[k]], modelH, modelW, scaleW, scaleH))
  }

  function Candidates(h0: Head, h1: Head, h2: Head, logit: real, sigmoid: real -> real): (cs: seq<Cand>)
    requires GoodHead(h0) && GoodHead(h1) && GoodHead(h2)
    ensures AllProper(cs)
  {
    HeadCands(h0, logit, sigmoid) + HeadCands(h1, logit, sigmoid) + HeadCands(h2, logit, sigmoid)
  }

  lemma AscendingFresh(n: nat, scores: seq<real>, indices: seq<int>)
    requires |scores| == |indices| == n && forall i :: 0 <= i < n ==> indices[i] == i
    ensures Fresh(Zip(scores, indices))
  {
  }

  /** Sorting the score vector ranks the candidates. */
  method RankCandidates(probs: seq<real>, ghost cs: seq<Cand>) returns (scores: array<real>, indices: array<int>)
    requires probs == Scores(cs)
    ensures fresh(scores) && fresh(indices) && scores.Length == indices.Length == |cs|
    ensures IsRanking(indices[..], cs)
    ensures forall i :: 0 <= i < |cs| ==> scores[i] == cs[indices[i]].score
  {
    var n := |probs|;
    scores := new real[n](i requires 0 <= i < n => probs[i]);
    indices := new int[n](i => i);
    ghost var z0 := Zip(scores[..], indices[..]);
    AscendingFresh(n, scores[..], indices[..]);
    var _ := QuickSort(scores, indices, 0, n - 1);
    ghost var z := Zip(scores[..], indices[..]);
    SortedKeepsPairs(z0, z);
    assert z[0..n] == z;
    RankingOf(z0, z, cs, indices[..]);
    assert forall i :: 0 <= i < n ==> z[i].score == scores[i] && z[i].idx == indices[i];
  }

  lemma RankingOf(z0: seq<Entry>, z: seq<Entry>, cs: seq<Cand>, indices: seq<int>)
    requires |z0| == |z| == |cs| == |indices|
    requires forall i :: 0 <= i < |cs| ==> z0[i] == Entry(cs[i].score, i)
    requires forall i :: 0 <= i < |cs| ==> z[i].idx == indices[i]
    requires forall i :: 0 <= i < |z| ==> 0 <= z[i].idx < |z0| && z[i] == z0[z[i].idx]
    requires forall i, j :: 0 <= i < j < |z| ==> z[i].idx != z[j].idx
    requires Descending(z)
    ensures IsRanking(indices, cs)
    ensures forall i :: 0 <= i < |cs| ==> z[i].score == cs[indices[i]].score
  {
    forall i, j | 0 <= i < j < |indices|
      ensures indices[i] != indices[j]
    {
      assert z[i].idx != z[j].idx;
    }
    forall i | 0 <= i < |cs|
      ensures 0 <= indices[i] < |cs| && z[i].score == cs[indices[i]].score
    {
      assert z[i] == z0[z[i].idx];
    }
    forall i, j | 0 <= i < j < |indices|
      ensures cs[indices[i]].score >= cs[indices[j]].score
    {
      assert z[i].score >= z[j].score;
    }
  }

  lemma EmittedNext(names: seq<int>, n: int, cs: seq<Cand>, modelH: int, modelW: int, scaleW: real, scaleH: real)
    requires scaleW > 0.0 && scaleH > 0.0 && NamesIn(names, cs) && 0 <= n < |cs|
    ensures NamesIn(names + [n], cs)
    ensures var rs := Emitted(names, OBJ_NUMB_MAX_SIZE, cs, modelH, modelW, scaleW, scaleH);
      Emitted(names + [n], OBJ_NUMB_MAX_SIZE, cs, modelH, modelW, scaleW, scaleH) ==
      if |rs| >= OBJ_NUMB_MAX_SIZE then rs else rs + [Detected(cs[n], modelH, modelW, scaleW, scaleH)]
  {
  }

  /** The result-collection loop: tombstones are skipped and at most 64 results kept. */
  method Collect(validCount: int, order: array<int>, scores: array<real>, boxes: seq<real>, ghost cs: seq<Cand>,
                 modelH: int, modelW: int, scaleW: real, scaleH: real) returns (results: seq<Detection>)
    requires 0 <= validCount <= order.Length == scores.Length && scaleW > 0.0 && scaleH > 0.0 && boxes == Flat(cs)
    requires forall i :: 0 <= i < validCount && order[i] != -1 ==>
               0 <= order[i] < |cs| && scores[i] == cs[order[i]].score
    ensures NamesIn(Kept(order[..validCount]), cs)
    ensures results == Emitted(Kept(order[..validCount]), OBJ_NUMB_MAX_SIZE, cs, modelH, modelW, scaleW, scaleH)
  {
    results := [];
    ghost var names := [];
    for i := 0 to validCount
      invariant names == Kept(order[..i]) && NamesIn(names, cs)
      invariant results == Emitted(names, OBJ_NUMB_MAX_SIZE, cs, modelH, modelW, scaleW, scaleH)
    {
      assert order[..i + 1] == order[..i] + [order[i]];
      KeptSnoc(order[..i], order[i]);
      if order[i] != -1 {
        EmittedNext(names, order[i], cs, modelH, modelW, scaleW, scaleH);
        names := names + [order[i]];
      }
      if order[i] == -1 || |results| >= OBJ_NUMB_MAX_SIZE {
        continue;
      }
      var n := order[i];
      FlatAt(cs, n);
      var b := BoxAt(boxes, n);
      results := results + [Detected(Cand(b, scores[i]), modelH, modelW, scaleW, scaleH)];
    }
  }

  /** `results` are the first at most 64 survivors of greedy suppression over the
      top 200 of the ranking, each with its own box and score. */
  ghost predicate ResultsOf(results: seq<Detection>, ranking: seq<int>, cs: seq<Cand>, clash: Clash,
                            modelH: int, modelW: int, scaleW: real, scaleH: real)
    requires scaleW > 0.0 && scaleH > 0.0
  {
    var kept := Greedy(ranking[..Capped(|ranking|, TOP_K)], clash);
    NamesIn(kept, cs) && results == Emitted(kept, OBJ_NUMB_MAX_SIZE, cs, modelH, modelW, scaleW, scaleH)
  }

  /** Everything of post_process() after the candidates are gathered. */
  method Select(boxes: seq<real>, probs: seq<real>, classes: seq<int>, ghost cs: seq<Cand>, modelH: int, modelW: int,
                nmsThreshold: real, scaleW: real, scaleH: real)
    returns (results: seq<Detection>, ghost ranking: seq<int>)
    requires Holds(boxes, probs, classes, cs) && scaleW > 0.0 && scaleH > 0.0
    ensures IsRanking(ranking, cs)
    ensures ResultsOf(results, ranking, cs, Overlapping(boxes, nmsThreshold), modelH, modelW, scaleW, scaleH)
  {
    var scores, order := RankCandidates(probs, cs);
    ranking := order[..];
    var validCount := |probs|;
    if validCount > TOP_K {
      validCount := TOP_K;
    }
    ghost var top := ranking[..validCount];
    ghost var clash := Overlapping(boxes, nmsThreshold);
    assert order[..validCount] == top && forall i :: 0 <= i < validCount ==> top[i] == ranking[i];
    SuppressInPlace(validCount, boxes, classes, order, 0, nmsThreshold);
    LoopIsGreedy(top, classes, 0, clash);
    PassKeepsNames(top, 0, classes, 0, clash);
    assert forall i :: 0 <= i < validCount ==> order[i] == order[..validCount][i];
    results := Collect(validCount, order, scores, boxes, cs, modelH, modelW, scaleW, scaleH);
  }

  /** post_process(): for some ranking of the candidates by score, exactly the
      results of that ranking. */
  method Run(h0: Head, h1: Head, h2: Head, modelH: int, modelW: int, logit: real, sigmoid: real -> real,
             nmsThreshold: real, scaleW: real, scaleH: real)
    returns (results: seq<Detection>)
    requires GoodHead(h0) && GoodHead(h1) && GoodHead(h2) && scaleW > 0.0 && scaleH > 0.0
    ensures var cs := Candidates(h0, h1, h2, logit, sigmoid);
      IsResult(results, cs, Overlapping(Flat(cs), nmsThreshold), modelH, modelW, scaleW, scaleH)
  {
    ghost var cs := Candidates(h0, h1, h2, logit, sigmoid);
    ghost var clash := Overlapping(Flat(cs), nmsThreshold);
    var boxes, probs, classes := Gather(h0, h1, h2, logit, sigmoid);
    var validCount := |probs|;
    if validCount <= 0 {
      NoResults(cs, clash, modelH, modelW, scaleW, scaleH);
      return [];
    }
    ghost var ranking;
    results, ranking := Select(boxes, probs, classes, cs, modelH, modelW, nmsThreshold, scaleW, scaleH);
    RankedResult(results, ranking, cs, clash, modelH, modelW, scaleW, scaleH);
  }

  /** The ranking is by descending score, and the results are its. */
  ghost predicate Ranks(ranking: seq<int>, results: seq<Detection>, cs: seq<Cand>, clash: Clash,
                        modelH: int, modelW: int, scaleW: real, scaleH: real)
    requires scaleW > 0.0 && scaleH > 0.0
  {
    IsRanking(ranking, cs) && ResultsOf(results, ranking, cs, clash, modelH, modelW, scaleW, scaleH)
  }

  /** The results of some ranking of the candidates. */
  ghost predicate IsResult(results: seq<Detection>, cs: seq<Cand>, clash: Clash, modelH: int, modelW: int,
                           scaleW: real, scaleH: real)
    requires scaleW > 0.0 && scaleH > 0.0
  {
    exists ranking :: Ranks(ranking, results, cs, clash, modelH, modelW, scaleW, scaleH)
  }

  lemma NoResults(cs: seq<Cand>, clash: Clash, modelH: int, modelW: int, scaleW: real, scaleH: real)
    requires cs == [] && scaleW > 0.0 && scaleH > 0.0
    ensures IsResult([], cs, clash, modelH, modelW, scaleW, scaleH)
  {
    RankedResult([], [], cs, clash, modelH, modelW, scaleW, scaleH);
  }

  lemma RankedResult(results: seq<Detection>, ranking: seq<int>, cs: seq<Cand>, clash: Clash,
                     modelH: int, modelW: int, scaleW: real, scaleH: real)
    requires scaleW > 0.0 && scaleH > 0.0 && Ranks(ranking, results, cs, clash, modelH, modelW, scaleW, scaleH)
    ensures IsResult(results, cs, clash, modelH, modelW, scaleW, scaleH)
  {
  }

  /** A pass writes nothing but tombstones. */
  lemma {:induction false} PassKeepsNames(order: seq<int>, i: nat, classIds: seq<int>, filterId: int, clash: Clash)
    requires i <= |order| <= |classIds|
    ensures forall k :: 0 <= k < |order| ==>
              var r := Pass(order, i, classIds, filterId, clash); r[k] == order[k] || r[k] == -1
    decreases |order| - i
  {
    if i < |order| {
      if order[i] == -1 || classIds[i] != filterId {
        PassKeepsNames(order, i + 1, classIds, filterId, clash);
      } else {
        var next := Knocked(order, i, |order|, clash);
        assert forall k :: 0 <= k <= i ==> next[k] == next[..i + 1][k] == order[k];
        PassKeepsNames(next, i + 1, classIds, filterId, clash);
      }
    }
  }

  /** Each side of a detection is the pixel of its own side of the box, x by the
      model's width and y by its height. */
  lemma DetectedNear(c: Cand, modelH: int, modelW: int, scaleW: real, scaleH: real)
    requires 0 <= modelH && 0 <= modelW && scaleW > 0.0 && scaleH > 0.0
    ensures var d := Detected(c, modelH, modelW, scaleW, scaleH);
      && PixelOf(d.left, c.box.xmin, modelW, scaleW) && PixelOf(d.right, c.box.xmax, modelW, scaleW)
      && PixelOf(d.top, c.box.ymin, modelH, scaleH) && PixelOf(d.bottom, c.box.ymax, modelH, scaleH)
      && d.prop == c.score
  {
    ToCameraNear(c.box.xmin, modelW, scaleW);
    ToCameraNear(c.box.xmax, modelW, scaleW);
    ToCameraNear(c.box.ymin, modelH, scaleH);
    ToCameraNear(c.box.ymax, modelH, scaleH);
  }

  /** Every emitted box lies inside the scaled model area with its sides in order. */
  lemma EmittedBoxesInside(c: Cand, modelH: int, modelW: int, scaleW: real, scaleH: real)
    requires Proper(c.box) && 0 <= modelH && 0 <= modelW && scaleW > 0.0 && scaleH > 0.0
    ensures var d := Detected(c, modelH, modelW, scaleW, scaleH);
      && 0 <= d.left <= d.right && d.right as real <= modelW as real / scaleW
      && 0 <= d.top <= d.bottom && d.bottom as real <= modelH as real / scaleH
  {
    ToCameraOrdered(c.box.xmin, c.box.xmax, modelW, scaleW);
    ToCameraOrdered(c.box.ymin, c.box.ymax, modelH, scaleH);
  }

  predicate InImage(d: Detection, modelH: int, modelW: int, scaleW: real, scaleH: real)
    requires scaleW > 0.0 && scaleH > 0.0
  {
    && 0 <= d.left <= d.right && d.right as real <= modelW as real / scaleW
    && 0 <= d.top <= d.bottom && d.bottom as real <= modelH as real / scaleH
  }

  /** The survivors of a ranking stand in order of score. */
  lemma KeptDescends(ranking: seq<int>, cs: seq<Cand>, clash: Clash, n: nat)
    requires IsRanking(ranking, cs) && n <= |ranking| && NamesIn(Greedy(ranking[..n], clash), cs)
    ensures Descends(Greedy(ranking[..n], clash), cs)
  {
    var top := ranking[..n];
    var kept := Greedy(top, clash);
    GreedyKeepsOrder(top, clash);
    forall a, b | 0 <= a < b < |kept|
      ensures cs[kept[a]].score >= cs[kept[b]].score
    {
      var i, j := Embed(kept, top, a, b);
      assert ranking[i] == kept[a] && ranking[j] == kept[b];
    }
  }

  lemma EmittedInImage(kept: seq<int>, cs: seq<Cand>, modelH: int, modelW: int, scaleW: real, scaleH: real, a: nat)
    requires AllProper(cs) && NamesIn(kept, cs) && 0 <= modelH && 0 <= modelW && scaleW > 0.0 && scaleH > 0.0
    requires a < |Emitted(kept, OBJ_NUMB_MAX_SIZE, cs, modelH, modelW, scaleW, scaleH)|
    ensures InImage(Emitted(kept, OBJ_NUMB_MAX_SIZE, cs, modelH, modelW, scaleW, scaleH)[a], modelH, modelW, scaleW,
                    scaleH)
  {
    EmittedBoxesInside(cs[kept[a]], modelH, modelW, scaleW, scaleH);
  }

  /** Best first, at most 64, all inside the image. */
  ghost predicate GoodResults(rs: seq<Detection>, modelH: int, modelW: int, scaleW: real, scaleH: real)
    requires scaleW > 0.0 && scaleH > 0.0
  {
    && |rs| <= OBJ_NUMB_MAX_SIZE
    && (forall a, b :: 0 <= a < b < |rs| ==> rs[a].prop >= rs[b].prop)
    && (forall a :: 0 <= a < |rs| ==> InImage(rs[a], modelH, modelW, scaleW, scaleH))
  }

  ghost predicate Descends(names: seq<int>, cs: seq<Cand>)
    requires NamesIn(names, cs)
  {
    forall a, b :: 0 <= a < b < |names| ==> cs[names[a]].score >= cs[names[b]].score
  }

  lemma EmittedGood(kept: seq<int>, cs: seq<Cand>, modelH: int, modelW: int, scaleW: real, scaleH: real)
    requires AllProper(cs) && NamesIn(kept, cs) && Descends(kept, cs)
    requires 0 <= modelH && 0 <= modelW && scaleW > 0.0 && scaleH > 0.0
    ensures GoodResults(Emitted(kept, OBJ_NUMB_MAX_SIZE, cs, modelH, modelW, scaleW, scaleH), modelH, modelW, scaleW,
                        scaleH)
  {
    var rs := Emitted(kept, OBJ_NUMB_MAX_SIZE, cs, modelH, modelW, scaleW, scaleH);
    forall a | 0 <= a < |rs|
      ensures InImage(rs[a], modelH, modelW, scaleW, scaleH)
    {
      EmittedInImage(kept, cs, modelH, modelW, scaleW, scaleH, a);
    }
  }

  lemma RankedGood(ranking: seq<int>, cs: seq<Cand>, clash: Clash, n: nat,
                   modelH: int, modelW: int, scaleW: real, scaleH: real)
    requires AllProper(cs) && IsRanking(ranking, cs) && n <= |ranking| && NamesIn(Greedy(ranking[..n], clash), cs)
    requires 0 <= modelH && 0 <= modelW && scaleW > 0.0 && scaleH > 0.0
    ensures var rs := Emitted(Greedy(ranking[..n], clash), OBJ_NUMB_MAX_SIZE, cs, modelH, modelW, scaleW, scaleH);
      GoodResults(rs, modelH, modelW, scaleW, scaleH)
  {
    KeptDescends(ranking, cs, clash, n);
    EmittedGood(Greedy(ranking[..n], clash), cs, modelH, modelW, scaleW, scaleH);
  }

  lemma RankedResultsGood(ranking: seq<int>, results: seq<Detection>, cs: seq<Cand>, clash: Clash,
                          modelH: int, modelW: int, scaleW: real, scaleH: real)
    requires AllProper(cs) && 0 <= modelH && 0 <= modelW && scaleW > 0.0 && scaleH > 0.0
    requires Ranks(ranking, results, cs, clash, modelH, modelW, scaleW, scaleH)
    ensures GoodResults(results, modelH, modelW, scaleW, scaleH)
  {
    RankedGood(ranking, cs, clash, Capped(|ranking|, TOP_K), modelH, modelW, scaleW, scaleH);
  }

  /** Whatever the ranking, the results are good ones. */
  lemma ResultsAreOrdered(results: seq<Detection>, cs: seq<Cand>, clash: Clash,
                          modelH: int, modelW: int, scaleW: real, scaleH: real)
    requires AllProper(cs) && 0 <= modelH && 0 <= modelW && scaleW > 0.0 && scaleH > 0.0
    requires IsResult(results, cs, clash, modelH, modelW, scaleW, scaleH)
    ensures GoodResults(results, modelH, modelW, scaleW, scaleH)
  {
    var ranking :| Ranks(ranking, results, cs, clash, modelH, modelW, scaleW, scaleH);
    RankedResultsGood(ranking, results, cs, clash, modelH, modelW, scaleW, scaleH);
  }
}
