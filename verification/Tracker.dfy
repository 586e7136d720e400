/** The IoU tracker: greedy matching of detections to tracks, and the ageing rule. */
module Tracker {
  import opened GreedyMatching
  import opened Wire
  import opened RealFacts
  import opened Cells

  /** A class label: the bytes before its terminating zero. */
  type Name = seq<Byte>

  datatype Box = Box(left: int, top: int, right: int, bottom: int)

  /** `conf` is the raw bits of the float: the tracker only copies it. */
  datatype Det = Det(name: Name, conf: nat, box: Box)

  datatype Track = Track(id: nat, det: Det, unseen: nat, lastFrame: nat)

  datatype Output = Output(det: Det, id: nat)

  /** tracks_ and next_id_. */
  datatype TrackerState = TrackerState(tracks: seq<Track>, nextId: nat)

  const MAX_AGE := 30

  // ---- iou ----

  function Min(a: int, b: int): int {
    if a <= b then a else b
  }

  function Max(a: int, b: int): int {
    if a >= b then a else b
  }

  function Area(b: Box): int {
    (b.right - b.left) * (b.bottom - b.top)
  }

  function Shared(a: Box, b: Box): int {
    (Min(a.right, b.right) - Max(a.left, b.left)) * (Min(a.bottom, b.bottom) - Max(a.top, b.top))
  }

  function Iou(a: Box, b: Box): real {
    if Min(a.right, b.right) <= Max(a.left, b.left) || Min(a.bottom, b.bottom) <= Max(a.top, b.top) then 0.0
    else
      var uni := Area(a) + Area(b) - Shared(a, b);
      if uni > 0 then Shared(a, b) as real / uni as real else 0.0
  }

  /** IoU is symmetric and lies in [0, 1]. */
  lemma IouRange(a: Box, b: Box)
    ensures 0.0 <= Iou(a, b) <= 1.0 && Iou(a, b) == Iou(b, a)
  {
    if Min(a.right, b.right) > Max(a.left, b.left) && Min(a.bottom, b.bottom) > Max(a.top, b.top) {
      var w, h := Min(a.right, b.right) - Max(a.left, b.left), Min(a.bottom, b.bottom) - Max(a.top, b.top);
      IntProductMonotone(w, h, a.right - a.left, a.bottom - a.top);
      IntProductMonotone(w, h, b.right - b.left, b.bottom - b.top);
      UnitRatio(Shared(a, b) as real, (Area(a) + Area(b) - Shared(a, b)) as real);
    }
  }

  /** The points a box covers. */
  ghost function Covered(b: Box): set<Cell> {
    Points(b.left, b.top, b.right, b.bottom)
  }

  predicate Crosses(a: Box, b: Box) {
    Max(a.left, b.left) < Min(a.right, b.right) && Max(a.top, b.top) < Min(a.bottom, b.bottom)
  }

  lemma BothCovered(a: Box, b: Box)
    ensures Covered(a) * Covered(b) ==
            Points(Max(a.left, b.left), Max(a.top, b.top), Min(a.right, b.right), Min(a.bottom, b.bottom))
    ensures !Crosses(a, b) ==> Covered(a) * Covered(b) == {}
  {
  }

  /** Where two boxes cross, the sizes are those the code multiplies out. */
  lemma CrossingSizes(a: Box, b: Box)
    requires Crosses(a, b)
    ensures |Covered(a) * Covered(b)| == Shared(a, b) > 0
    ensures |Covered(a) + Covered(b)| == Area(a) + Area(b) - Shared(a, b)
  {
    BothCovered(a, b);
    PointsSize(a.left, a.top, a.right, a.bottom);
    PointsSize(b.left, b.top, b.right, b.bottom);
    PointsSize(Max(a.left, b.left), Max(a.top, b.top), Min(a.right, b.right), Min(a.bottom, b.bottom));
    UnionSize(Covered(a), Covered(b));
    var w, h := Min(a.right, b.right) - Max(a.left, b.left), Min(a.bottom, b.bottom) - Max(a.top, b.top);
    IntProductMonotone(w, h, w, h);
  }

  /** IoU of any two boxes is the points in both over the points in either. */
  lemma IouCounts(a: Box, b: Box)
    ensures Iou(a, b) * |Covered(a) + Covered(b)| as real == |Covered(a) * Covered(b)| as real
  {
    if Crosses(a, b) {
      CrossingSizes(a, b);
      SubsetSize(Covered(a) * Covered(b), Covered(a) + Covered(b));
      QuotientTimes(Shared(a, b) as real, (Area(a) + Area(b) - Shared(a, b)) as real);
    } else {
      BothCovered(a, b);
    }
  }

  /** A box with points in it overlaps itself fully. */
  lemma IouSelf(b: Box)
    requires b.left < b.right && b.top < b.bottom
    ensures Iou(b, b) == 1.0
  {
    CrossingSizes(b, b);
    assert Shared(b, b) == Area(b);
  }

  // ---- matching ----

  /** IoU of a same-class pair; pairs of different classes are worth nothing. */
  function PairScore(dets: seq<Det>, tracks: seq<Track>): Score {
    (d, t) =>
      if 0 <= d < |dets| && 0 <= t < |tracks| && dets[d].name == tracks[t].det.name
      then Iou(dets[d].box, tracks[t].det.box) else 0.0
  }

  function Pairing(dets: seq<Det>, tracks: seq<Track>): Problem {
    Problem(|dets|, |tracks|, PairScore(dets, tracks))
  }

  /** Same class, and overlapping enough. */
  predicate Eligible(det: Det, tr: Track) {
    det.name == tr.det.name && Iou(det.box, tr.det.box) > 0.3
  }

  /** The greedy matching of a frame joins same-class pairs of IoU above 0.3, and
      an eligible pair that is not joined lost to an IoU at least as large. */
  lemma FrameMatching(dets: seq<Det>, tracks: seq<Track>)
    ensures var m := Match(Pairing(dets, tracks));
      && Consistent(m, |dets|, |tracks|)
      && (forall d :: 0 <= d < |dets| && m.toTrack[d] >= 0 ==> Eligible(dets[d], tracks[m.toTrack[d]]))
      && (forall d, t :: 0 <= d < |dets| && 0 <= t < |tracks| && Eligible(dets[d], tracks[t]) ==>
            Beaten(Pairing(dets, tracks), m, d, t))
  {
    var p := Pairing(dets, tracks);
    MatchIsStable(p);
    assert forall d :: 0 <= d < |dets| && Match(p).toTrack[d] >= 0 ==> p.score(d, Match(p).toTrack[d]) > THRESHOLD;
    forall d, t | 0 <= d < |dets| && 0 <= t < |tracks| && Eligible(dets[d], tracks[t])
      ensures Beaten(p, Match(p), d, t)
    {
      assert p.score(d, t) > THRESHOLD;
    }
  }

  // ---- the new track list ----

  datatype Progress = Progress(tracks: seq<Track>, nextId: nat, outputs: seq<Output>)

  function Refreshed(tr: Track, det: Det, frame: nat): Track {
    tr.(det := det, unseen := 0, lastFrame := frame)
  }

  /** The first n detections written to their track, or appended as a new one. */
  function Absorb(s: TrackerState, dets: seq<Det>, toTrack: seq<int>, frame: nat, n: nat): (p: Progress)
    requires n <= |dets| == |toTrack| && forall d :: 0 <= d < |dets| ==> -1 <= toTrack[d] < |s.tracks|
    ensures |p.tracks| >= |s.tracks| && |p.outputs| == n
  {
    if n == 0 then Progress(s.tracks, s.nextId, [])
    else
      var p := Absorb(s, dets, toTrack, frame, n - 1);
      var d := n - 1;
      if toTrack[d] >= 0 then
        var tr := Refreshed(p.tracks[toTrack[d]], dets[d], frame);
        Progress(p.tracks[toTrack[d] := tr], p.nextId, p.outputs + [Output(dets[d], tr.id)])
      else
        Progress(p.tracks + [Track(p.nextId, dets[d], 0, frame)], p.nextId + 1, p.outputs + [Output(dets[d], p.nextId)])
  }

  /** One more frame unseen for the first n tracks that found no detection. */
  function Aged(tracks: seq<Track>, used: seq<bool>, n: nat): (r: seq<Track>)
    requires n <= |used| <= |tracks|
    ensures |r| == |tracks|
    ensures forall t :: 0 <= t < |r| ==>
              r[t] == if t < n && !used[t] then tracks[t].(unseen := tracks[t].unseen + 1) else tracks[t]
  {
    if n == 0 then tracks
    else
      var r := Aged(tracks, used, n - 1);
      if !used[n - 1] then r[n - 1 := r[n - 1].(unseen := r[n - 1].unseen + 1)] else r
  }

  /** remove_if(frames_unseen > kMaxAge). */
  function Young(tracks: seq<Track>): (r: seq<Track>)
    ensures forall x :: x in r <==> x in tracks && x.unseen <= MAX_AGE
  {
    if tracks == [] then []
    else if tracks[0].unseen > MAX_AGE then Young(tracks[1..])
    else [tracks[0]] + Young(tracks[1..])
  }

  /** One call of update(): the new state and the outputs. */
  function Update(s: TrackerState, frame: nat, dets: seq<Det>): (r: (TrackerState, seq<Output>))
    ensures |r.1| == |dets|
  {
    var m := Match(Pairing(dets, s.tracks));
    var p := Absorb(s, dets, m.toTrack, frame, |dets|);
    (TrackerState(Young(Aged(p.tracks, m.used, |s.tracks|)), p.nextId), p.outputs)
  }

  class IouTracker {
    var tracks: seq<Track>
    var nextId: nat

    ghost function State(): TrackerState
      reads this
    {
      TrackerState(tracks, nextId)
    }

    constructor ()
      ensures State() == TrackerState([], 1)
    {
      tracks, nextId := [], 1;
    }

    /** The two scanning loops of one matching round. */
    method BestPair(dets: seq<Det>, ghost p: Problem, toTrack: seq<int>, used: seq<bool>)
      returns (bestD: int, bestT: int)
      requires p == Pairing(dets, tracks) && Sized(p, Matching(toTrack, used))
      ensures var b := ScanAll(p, Matching(toTrack, used), |dets|); bestD == b.d && bestT == b.t
    {
      ghost var m := Matching(toTrack, used);
      var bestIou := 0.3;
      bestD, bestT := -1, -1;
      for d := 0 to |dets|
        invariant Best(bestIou, bestD, bestT) == ScanAll(p, m, d) && bestIou >= 0.3
      {
        ghost var start := Best(bestIou, bestD, bestT);
        for t := 0 to |tracks|
          invariant Best(bestIou, bestD, bestT) == ScanRow(p, m, d, t, start) && bestIou >= 0.3
        {
          assert p.score(d, t) ==
                 if dets[d].name == tracks[t].det.name then Iou(dets[d].box, tracks[t].det.box) else 0.0;
          if toTrack[d] >= 0 || used[t] || dets[d].name != tracks[t].det.name {
            continue;
          }
          var v := Iou(dets[d].box, tracks[t].det.box);
          if v > bestIou {
            bestIou, bestD, bestT := v, d, t;
          }
        }
      }
    }

    /** Repeated picking, until a scan finds nothing. */
    method MatchAll(dets: seq<Det>) returns (toTrack: seq<int>, used: seq<bool>)
      ensures Matching(toTrack, used) == Match(Pairing(dets, tracks))
    {
      ghost var p := Pairing(dets, tracks);
      toTrack, used := seq(|dets|, _ => -1), seq(|tracks|, _ => false);
      while true
        invariant Sized(p, Matching(toTrack, used))
        invariant Greedy(p, Matching(toTrack, used)) == Match(p)
        decreases FreeDets(toTrack)
      {
        ghost var m := Matching(toTrack, used);
        ScanFindsPick(p, m);
        var d, t := BestPair(dets, p, toTrack, used);
        if d < 0 {
          return;
        }
        FreeDetsDrop(toTrack, d, t);
        toTrack, used := toTrack[d := t], used[t := true];
      }
    }

    /** The loop that refreshes matched tracks and starts new ones. */
    method AbsorbAll(frame: nat, dets: seq<Det>, toTrack: seq<int>) returns (outputs: seq<Output>)
      requires |dets| == |toTrack| && forall d :: 0 <= d < |dets| ==> -1 <= toTrack[d] < |tracks|
      modifies this
      ensures Progress(tracks, nextId, outputs) == Absorb(old(State()), dets, toTrack, frame, |dets|)
    {
      ghost var s := State();
      outputs := [];
      for d := 0 to |dets|
        invariant Progress(tracks, nextId, outputs) == Absorb(s, dets, toTrack, frame, d)
      {
        if toTrack[d] >= 0 {
          var tr := Refreshed(tracks[toTrack[d]], dets[d], frame);
          tracks := tracks[toTrack[d] := tr];
          outputs := outputs + [Output(dets[d], tr.id)];
        } else {
          var tr := Track(nextId, dets[d], 0, frame);
          nextId := nextId + 1;
          tracks := tracks + [tr];
          outputs := outputs + [Output(dets[d], tr.id)];
        }
      }
    }

    /** The ageing loop over the tracks that were there before the frame. */
    method AgeUnused(used: seq<bool>)
      requires |used| <= |tracks|
      modifies this`tracks
      ensures tracks == Aged(old(tracks), used, |used|)
    {
      ghost var was := tracks;
      for t := 0 to |used|
        invariant tracks == Aged(was, used, t)
      {
        if !used[t] {
          tracks := tracks[t := tracks[t].(unseen := tracks[t].unseen + 1)];
        }
      }
    }

    /** update(). */
    method Step(frame: nat, dets: seq<Det>) returns (outputs: seq<Output>)
      modifies this
      ensures (State(), outputs) == Update(old(State()), frame, dets)
    {
      var toTrack, used := MatchAll(dets);
      outputs := AbsorbAll(frame, dets, toTrack);
      AgeUnused(used);
      tracks := Young(tracks);
    }
  }
}
