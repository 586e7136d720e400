/** Greedy matching: pick the best remaining pair until none is good enough. */
module GreedyMatching {

  /** det_to_track and track_used during the matching loop. */
  datatype Matching = Matching(toTrack: seq<int>, used: seq<bool>)

  /** The arrays are the two readings of one injective partial map. */
  ghost predicate Consistent(m: Matching, D: nat, T: nat) {
    && |m.toTrack| == D && |m.used| == T
    && (forall d :: 0 <= d < D ==> -1 <= m.toTrack[d] < T)
    && (forall d :: 0 <= d < D && m.toTrack[d] >= 0 ==> m.used[m.toTrack[d]])
    && (forall d, e :: 0 <= d < e < D && m.toTrack[d] >= 0 ==> m.toTrack[d] != m.toTrack[e])
    && (forall t :: 0 <= t < T && m.used[t] ==> exists d :: 0 <= d < D && m.toTrack[d] == t)
  }

  /** What a pairing is worth; a pair is eligible when it is worth more than THRESHOLD. */
  type Score = (int, int) -> real

  /** D detections against T tracks. */
  datatype Problem = Problem(D: nat, T: nat, score: Score)

  const THRESHOLD := 0.3

  predicate Sized(p: Problem, m: Matching) {
    |m.toTrack| == p.D && |m.used| == p.T
  }

  predicate Free(m: Matching, d: int, t: int)
    requires 0 <= d < |m.toTrack| && 0 <= t < |m.used|
  {
    m.toTrack[d] < 0 && !m.used[t]
  }

  /** (d, t) is eligible and both are still unmatched. */
  predicate Open(p: Problem, m: Matching, d: int, t: int)
    requires Sized(p, m)
  {
    0 <= d < p.D && 0 <= t < p.T && Free(m, d, t) && p.score(d, t) > THRESHOLD
  }

  predicate Before(d: int, t: int, e: int, u: int) {
    d < e || (d == e && t < u)
  }

  /** (d, t) is the pair one round picks: open, of greatest worth, and the first
      such pair in scan order. */
  ghost predicate IsPick(p: Problem, m: Matching, d: int, t: int)
    requires Sized(p, m)
  {
    && Open(p, m, d, t)
    && forall e, u :: Open(p, m, e, u) ==>
         p.score(e, u) <= p.score(d, t) && (Before(e, u, d, t) ==> p.score(e, u) < p.score(d, t))
  }

  ghost predicate NoneLeft(p: Problem, m: Matching)
    requires Sized(p, m)
  {
    forall d, t :: !Open(p, m, d, t)
  }

  function Matched(m: Matching, d: int, t: int): Matching
    requires 0 <= d < |m.toTrack| && 0 <= t < |m.used|
  {
    Matching(m.toTrack[d := t], m.used[t := true])
  }

  lemma MatchedConsistent(m: Matching, D: nat, T: nat, d: int, t: int)
    requires Consistent(m, D, T) && 0 <= d < D && 0 <= t < T && Free(m, d, t)
    ensures Consistent(Matched(m, d, t), D, T)
  {
    var n := Matched(m, d, t);
    forall u | 0 <= u < T && n.used[u]
      ensures exists e :: 0 <= e < D && n.toTrack[e] == u
    {
      if u == t {
        assert n.toTrack[d] == u;
      } else {
        var e :| 0 <= e < D && m.toTrack[e] == u;
        assert n.toTrack[e] == u;
      }
    }
  }

  /** What every matching reached by picking satisfies: matched pairs are
      eligible, and an eligible pair that lost out lost to an IoU at least as large. */
  ghost predicate Stable(p: Problem, m: Matching)
    requires Sized(p, m)
  {
    && (forall d :: 0 <= d < p.D && m.toTrack[d] >= 0 ==> p.score(d, m.toTrack[d]) > THRESHOLD)
    && (forall d, t :: 0 <= d < p.D && 0 <= t < p.T && p.score(d, t) > THRESHOLD ==>
          Open(p, m, d, t) || Beaten(p, m, d, t))
  }

  /** d, or t, is matched with an IoU at least that of (d, t). */
  ghost predicate Beaten(p: Problem, m: Matching, d: int, t: int)
    requires Sized(p, m) && 0 <= d < p.D && 0 <= t < p.T
  {
    || (m.toTrack[d] >= 0 && p.score(d, m.toTrack[d]) >= p.score(d, t))
    || (exists e :: 0 <= e < p.D && m.toTrack[e] == t && p.score(e, t) >= p.score(d, t))
  }

  lemma PickKeepsStable(p: Problem, m: Matching, d: int, t: int)
    requires Sized(p, m) && Stable(p, m) && IsPick(p, m, d, t)
    ensures Stable(p, Matched(m, d, t))
  {
    var n := Matched(m, d, t);
    forall e, u | 0 <= e < p.D && 0 <= u < p.T && p.score(e, u) > THRESHOLD
      ensures Open(p, n, e, u) || Beaten(p, n, e, u)
    {
      if Open(p, m, e, u) {
        if e == d {
          assert n.toTrack[e] == t;
        } else if u == t {
          assert n.toTrack[d] == u;
        }
      } else if m.toTrack[e] >= 0 && p.score(e, m.toTrack[e]) >= p.score(e, u) {
        assert n.toTrack[e] == m.toTrack[e];
      } else {
        var f :| 0 <= f < p.D && m.toTrack[f] == u && p.score(f, u) >= p.score(e, u);
        assert n.toTrack[f] == u;
      }
    }
  }

  function FreeDets(toTrack: seq<int>): nat {
    if toTrack == [] then 0 else (if toTrack[0] < 0 then 1 else 0) + FreeDets(toTrack[1..])
  }

  lemma {:induction false} FreeDetsDrop(toTrack: seq<int>, d: nat, t: nat)
    requires d < |toTrack| && toTrack[d] < 0
    ensures FreeDets(toTrack[d := t]) == FreeDets(toTrack) - 1
  {
    if d == 0 {
      assert toTrack[d := t][1..] == toTrack[1..];
    } else {
      assert toTrack[d := t][1..] == toTrack[1..][d - 1 := t];
      FreeDetsDrop(toTrack[1..], d - 1, t);
    }
  }

  // ---- one round of the scan ----

  /** best_iou, best_d, best_t. */
  datatype Best = Best(iou: real, d: int, t: int)

  const NO_BEST := Best(THRESHOLD, -1, -1)

  /** One cell of the scan. */
  function ScanCell(p: Problem, m: Matching, d: int, t: int, best: Best): Best
    requires 0 <= d < p.D == |m.toTrack| && 0 <= t < p.T == |m.used|
  {
    if !Free(m, d, t) then best
    else if p.score(d, t) > best.iou then Best(p.score(d, t), d, t)
    else best
  }

  /** The first n tracks against detection d, then the first n detections. */
  function ScanRow(p: Problem, m: Matching, d: int, n: nat, best: Best): Best
    requires 0 <= d < p.D == |m.toTrack| && n <= p.T == |m.used|
  {
    if n == 0 then best else ScanCell(p, m, d, n - 1, ScanRow(p, m, d, n - 1, best))
  }

  function ScanAll(p: Problem, m: Matching, n: nat): Best
    requires n <= p.D == |m.toTrack| && p.T == |m.used|
  {
    if n == 0 then NO_BEST else ScanRow(p, m, n - 1, p.T, ScanAll(p, m, n - 1))
  }

  /** `best` is the pick among the cells scanned before (d, t), or there was none. */
  ghost predicate BestSoFar(p: Problem, m: Matching, d: int, t: int, best: Best)
    requires Sized(p, m)
  {
    && best.iou >= THRESHOLD
    && (best.d < 0 ==> best == NO_BEST)
    && (best.d >= 0 ==>
          Before(best.d, best.t, d, t) && Open(p, m, best.d, best.t) && p.score(best.d, best.t) == best.iou)
    && (forall e, u :: Open(p, m, e, u) && Before(e, u, d, t) ==>
          && best.d >= 0 && p.score(e, u) <= best.iou
          && (Before(e, u, best.d, best.t) ==> p.score(e, u) < best.iou))
  }

  lemma CellBest(p: Problem, m: Matching, d: nat, t: nat, best: Best)
    requires Sized(p, m) && d < p.D && t < p.T && BestSoFar(p, m, d, t, best)
    ensures BestSoFar(p, m, d, t + 1, ScanCell(p, m, d, t, best))
  {
  }

  lemma {:induction false} RowBest(p: Problem, m: Matching, d: nat, n: nat, best: Best)
    requires Sized(p, m) && d < p.D && n <= p.T
    requires BestSoFar(p, m, d, 0, best)
    ensures BestSoFar(p, m, d, n, ScanRow(p, m, d, n, best))
  {
    if n > 0 {
      RowBest(p, m, d, n - 1, best);
      CellBest(p, m, d, n - 1, ScanRow(p, m, d, n - 1, best));
    }
  }

  lemma RowWrap(p: Problem, m: Matching, d: nat, best: Best)
    requires Sized(p, m) && d < p.D && BestSoFar(p, m, d, p.T, best)
    ensures BestSoFar(p, m, d + 1, 0, best)
  {
  }

  lemma {:induction false} ScanBest(p: Problem, m: Matching, n: nat)
    requires Sized(p, m) && n <= p.D
    ensures BestSoFar(p, m, n, 0, ScanAll(p, m, n))
  {
    if n > 0 {
      ScanBest(p, m, n - 1);
      RowBest(p, m, n - 1, p.T, ScanAll(p, m, n - 1));
      RowWrap(p, m, n - 1, ScanAll(p, m, n));
    }
  }

  /** A full scan finds the pick, or shows that no eligible pair is left. */
  lemma ScanFindsPick(p: Problem, m: Matching)
    requires Sized(p, m)
    ensures var b := ScanAll(p, m, p.D);
      if b.d >= 0 then IsPick(p, m, b.d, b.t) && b.iou == p.score(b.d, b.t)
      else NoneLeft(p, m)
  {
    ScanBest(p, m, p.D);
  }

  /** Repeated picking until nothing eligible is left. */
  function Greedy(p: Problem, m: Matching): (r: Matching)
    requires Sized(p, m)
    decreases FreeDets(m.toTrack)
  {
    var b := ScanAll(p, m, p.D);
    ScanFindsPick(p, m);
    if b.d < 0 then m
    else
      FreeDetsDrop(m.toTrack, b.d, b.t);
      Greedy(p, Matched(m, b.d, b.t))
  }

  /** The IoUs of the pairs picked, in the order they are picked. */
  function Picks(p: Problem, m: Matching): seq<real>
    requires Sized(p, m)
    decreases FreeDets(m.toTrack)
  {
    var b := ScanAll(p, m, p.D);
    ScanFindsPick(p, m);
    if b.d < 0 then []
    else
      FreeDetsDrop(m.toTrack, b.d, b.t);
      [b.iou] + Picks(p, Matched(m, b.d, b.t))
  }

  function Nothing(D: nat, T: nat): Matching {
    Matching(seq(D, _ => -1), seq(T, _ => false))
  }

  lemma {:induction false} GreedyStable(p: Problem, m: Matching)
    requires Sized(p, m) && Stable(p, m)
    ensures var r := Greedy(p, m);
      Sized(p, r) && Stable(p, r) && NoneLeft(p, r)
    decreases FreeDets(m.toTrack)
  {
    ScanFindsPick(p, m);
    var b := ScanAll(p, m, p.D);
    if b.d >= 0 {
      PickKeepsStable(p, m, b.d, b.t);
      FreeDetsDrop(m.toTrack, b.d, b.t);
      GreedyStable(p, Matched(m, b.d, b.t));
    }
  }

  /** No picked IoU exceeds an earlier one. */
  lemma {:induction false} PicksNeverIncrease(p: Problem, m: Matching, i: nat, j: nat)
    requires Sized(p, m) && i < j < |Picks(p, m)|
    ensures Picks(p, m)[i] >= Picks(p, m)[j] > THRESHOLD
    decreases FreeDets(m.toTrack)
  {
    ScanFindsPick(p, m);
    var b := ScanAll(p, m, p.D);
    var n := Matched(m, b.d, b.t);
    FreeDetsDrop(m.toTrack, b.d, b.t);
    assert forall d, t :: Open(p, n, d, t) ==> Open(p, m, d, t);
    if i > 0 {
      PicksNeverIncrease(p, n, i - 1, j - 1);
    } else {
      PicksBelow(p, n, j - 1, b.iou);
    }
  }

  lemma {:induction false} PicksBelow(p: Problem, m: Matching, j: nat, bound: real)
    requires Sized(p, m) && j < |Picks(p, m)|
    requires forall d, t :: Open(p, m, d, t) ==> p.score(d, t) <= bound
    ensures bound >= Picks(p, m)[j] > THRESHOLD
    decreases FreeDets(m.toTrack)
  {
    ScanFindsPick(p, m);
    var b := ScanAll(p, m, p.D);
    FreeDetsDrop(m.toTrack, b.d, b.t);
    if j > 0 {
      assert forall d, t :: Open(p, Matched(m, b.d, b.t), d, t) ==> Open(p, m, d, t);
      PicksBelow(p, Matched(m, b.d, b.t), j - 1, bound);
    }
  }

  lemma {:induction false} GreedyConsistent(p: Problem, m: Matching)
    requires Consistent(m, p.D, p.T)
    ensures Consistent(Greedy(p, m), p.D, p.T)
    decreases FreeDets(m.toTrack)
  {
    ScanFindsPick(p, m);
    var b := ScanAll(p, m, p.D);
    if b.d >= 0 {
      MatchedConsistent(m, p.D, p.T, b.d, b.t);
      FreeDetsDrop(m.toTrack, b.d, b.t);
      GreedyConsistent(p, Matched(m, b.d, b.t));
    }
  }

  /** The matching of one frame. */
  function Match(p: Problem): (m: Matching)
    ensures Consistent(m, p.D, p.T)
  {
    GreedyConsistent(p, Nothing(p.D, p.T));
    Greedy(p, Nothing(p.D, p.T))
  }

  /** The matching joins only eligible pairs, is stable and maximal: every
      eligible pair is matched, or one of its sides is matched with an IoU at
      least as large. */
  lemma MatchIsStable(p: Problem)
    ensures var m := Match(p);
      && (forall d :: 0 <= d < p.D && m.toTrack[d] >= 0 ==> p.score(d, m.toTrack[d]) > THRESHOLD)
      && (forall d, t :: 0 <= d < p.D && 0 <= t < p.T && p.score(d, t) > THRESHOLD ==> Beaten(p, m, d, t))
  {
    GreedyStable(p, Nothing(p.D, p.T));
  }
}
