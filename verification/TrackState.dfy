/** One track of the temporal manager: counters, history ring, velocity, loiter
    score and region-of-interest events. */
module TrackStates {
  import opened Wire
  import opened Tracker
  import opened Cells

  datatype Observation = Observation(stamp: nat, cx: int, cy: int, box: Box)

  datatype Roi = Roi(left: int, top: int, right: int, bottom: int, enabled: bool)

  predicate Contains(roi: Roi, x: int, y: int) {
    roi.enabled && roi.left <= x < roi.right && roi.top <= y < roi.bottom
  }

  /** The fields of a TrackState; speed, acceleration and heading are not among
      them. */
  datatype Snapshot = Snapshot(id: nat, name: Name, firstSeen: nat, lastSeen: nat,
                               seen: nat, sinceFirst: nat, missed: nat,
                               last: Observation, history: seq<Observation>,
                               vx: real, vy: real, loiter: real,
                               inRoi: bool, prevInRoi: bool, entered: bool, exited: bool)

  const HISTORY_MAX := 16
  const LOITER_RADIUS := 25
  const TENTATIVE_FRAMES := 3
  const NO_OBSERVATION := Observation(0, 0, 0, Box(0, 0, 0, 0))

  /** C++ integer division by two, which rounds toward zero. */
  function Half(x: int): int {
    if x >= 0 then x / 2 else -(-x / 2)
  }

  function Seen(stamp: nat, box: Box): Observation {
    Observation(stamp, Half(box.left + box.right), Half(box.top + box.bottom), box)
  }

  /** A centroid is the middle of its box on each axis, cut toward zero, so a
      proper box holds it. */
  ghost predicate Middle(m: int, lo: int, hi: int) {
    && (if lo + hi >= 0 then 2 * m <= lo + hi <= 2 * m + 1 else 2 * m - 1 <= lo + hi <= 2 * m)
    && (lo <= hi ==> lo <= m <= hi)
  }

  lemma SeenCentre(stamp: nat, box: Box)
    ensures var o := Seen(stamp, box);
      o.stamp == stamp && o.box == box && Middle(o.cx, box.left, box.right) && Middle(o.cy, box.top, box.bottom)
  {
  }

  /** The region is the set of its pixels, left and top included. */
  lemma ContainsIff(roi: Roi, x: int, y: int)
    ensures Contains(roi, x, y) <==> roi.enabled && (x, y) in Points(roi.left, roi.top, roi.right, roi.bottom)
  {
  }

  function Fresh(id: nat, name: Name, stamp: nat): Snapshot {
    Snapshot(id, Cut(name), stamp, 0, 0, 0, 0, NO_OBSERVATION, [], 0.0, 0.0, 0.0, false, false, false, false)
  }

  /** uint64 subtraction, in microseconds. */
  function Elapsed(now: nat, before: nat): (r: nat)
    ensures before <= now < 0x1_0000_0000_0000_0000 ==> r == now - before
  {
    (now - before) % 0x1_0000_0000_0000_0000
  }

  /** The smoothed velocity on one axis after moving d pixels in us microseconds. */
  function Smoothed(v: real, d: int, us: nat): real {
    if us > 100 then 0.5 * (d as real * 1000000.0 / us as real) + 0.5 * v else v
  }

  function Pushed(history: seq<Observation>, obs: Observation): (r: seq<Observation>)
    ensures |history| <= HISTORY_MAX ==> |r| <= HISTORY_MAX
  {
    var h := history + [obs];
    if |h| > HISTORY_MAX then h[1..] else h
  }

  // ---- the spread of the history ----

  /** Extremes of the centroids of the first n observations. */
  function MinX(h: seq<Observation>, n: nat): int
    requires 0 < n <= |h|
  {
    if n == 1 then h[0].cx else Min(MinX(h, n - 1), h[n - 1].cx)
  }

  function MaxX(h: seq<Observation>, n: nat): int
    requires 0 < n <= |h|
  {
    if n == 1 then h[0].cx else Max(MaxX(h, n - 1), h[n - 1].cx)
  }

  function MinY(h: seq<Observation>, n: nat): int
    requires 0 < n <= |h|
  {
    if n == 1 then h[0].cy else Min(MinY(h, n - 1), h[n - 1].cy)
  }

  function MaxY(h: seq<Observation>, n: nat): int
    requires 0 < n <= |h|
  {
    if n == 1 then h[0].cy else Max(MaxY(h, n - 1), h[n - 1].cy)
  }

  function Spread(h: seq<Observation>): int
    requires h != []
  {
    Max(MaxX(h, |h|) - MinX(h, |h|), MaxY(h, |h|) - MinY(h, |h|))
  }

  function ScoreOf(spread: int): real {
    var s := 1.0 - spread as real / LOITER_RADIUS as real;
    if s < 0.0 then 0.0 else if s > 1.0 then 1.0 else s
  }

  function Loiter(h: seq<Observation>): real {
    if |h| >= 4 then ScoreOf(Spread(h)) else 0.0
  }

  predicate Near(a: Observation, b: Observation) {
    -LOITER_RADIUS < a.cx - b.cx < LOITER_RADIUS && -LOITER_RADIUS < a.cy - b.cy < LOITER_RADIUS
  }

  /** The extremes bound every centroid, and are reached. */
  ghost predicate Extremes(h: seq<Observation>, n: nat, i: nat, j: nat, k: nat, l: nat)
    requires 0 < n <= |h|
  {
    && i < n && j < n && k < n && l < n
    && MinX(h, n) == h[i].cx && MaxX(h, n) == h[j].cx && MinY(h, n) == h[k].cy && MaxY(h, n) == h[l].cy
    && forall p :: 0 <= p < n ==> h[i].cx <= h[p].cx <= h[j].cx && h[k].cy <= h[p].cy <= h[l].cy
  }

  lemma {:induction false} SpreadReached(h: seq<Observation>, n: nat) returns (i: nat, j: nat, k: nat, l: nat)
    requires 0 < n <= |h|
    ensures Extremes(h, n, i, j, k, l)
  {
    i, j, k, l := 0, 0, 0, 0;
    if n > 1 {
      i, j, k, l := SpreadReached(h, n - 1);
      i := if MinX(h, n) == MinX(h, n - 1) then i else n - 1;
      j := if MaxX(h, n) == MaxX(h, n - 1) then j else n - 1;
      k := if MinY(h, n) == MinY(h, n - 1) then k else n - 1;
      l := if MaxY(h, n) == MaxY(h, n - 1) then l else n - 1;
    }
  }

  lemma ScorePositive(spread: int)
    requires spread >= 0
    ensures 0.0 <= ScoreOf(spread) <= 1.0 && (ScoreOf(spread) > 0.0 <==> spread < LOITER_RADIUS)
  {
  }

  /** The loiter score is positive exactly when at least four observations are
      held and every two lie strictly within 25 pixels of each other per axis. */
  lemma LoiterIff(h: seq<Observation>)
    ensures 0.0 <= Loiter(h) <= 1.0
    ensures Loiter(h) > 0.0 <==> |h| >= 4 && forall i, j :: 0 <= i < |h| && 0 <= j < |h| ==> Near(h[i], h[j])
  {
    if |h| >= 4 {
      var i, j, k, l := SpreadReached(h, |h|);
      ScorePositive(Spread(h));
      if forall i, j :: 0 <= i < |h| && 0 <= j < |h| ==> Near(h[i], h[j]) {
        assert Near(h[j], h[i]) && Near(h[l], h[k]);
      }
    }
  }

  /** How far two centroids lie apart on the axis where they lie farther apart. */
  function Apart(a: Observation, b: Observation): int {
    Max(Max(a.cx - b.cx, b.cx - a.cx), Max(a.cy - b.cy, b.cy - a.cy))
  }

  /** The score falls by 1/25 for each pixel between the two observations that lie
      farthest apart, down to 0. */
  lemma LoiterExact(h: seq<Observation>) returns (p: nat, q: nat)
    requires |h| >= 4
    ensures p < |h| && q < |h| && forall i, j :: 0 <= i < |h| && 0 <= j < |h| ==> Apart(h[i], h[j]) <= Apart(h[p], h[q])
    ensures 25.0 * (1.0 - Loiter(h)) == Min(Apart(h[p], h[q]), 25) as real
  {
    var i, j, k, l := SpreadReached(h, |h|);
    if h[j].cx - h[i].cx >= h[l].cy - h[k].cy {
      p, q := j, i;
    } else {
      p, q := l, k;
    }
    assert Apart(h[p], h[q]) == Spread(h) by {
      assert h[i].cx <= h[q].cx <= h[j].cx && h[k].cy <= h[q].cy <= h[l].cy;
      assert h[i].cx <= h[p].cx <= h[j].cx && h[k].cy <= h[p].cy <= h[l].cy;
    }
  }

  // ---- operations ----

  /** The velocity block of update(). */
  function Followed(s: Snapshot, obs: Observation): Snapshot {
    if s.seen == 0 then s
    else
      var us := Elapsed(obs.stamp, s.last.stamp);
      s.(vx := Smoothed(s.vx, obs.cx - s.last.cx, us), vy := Smoothed(s.vy, obs.cy - s.last.cy, us))
  }

  /** Its counters, history ring and loiter score. */
  function Remembered(s: Snapshot, obs: Observation): Snapshot {
    var h := Pushed(s.history, obs);
    s.(seen := s.seen + 1, sinceFirst := s.sinceFirst + 1, missed := 0, lastSeen := obs.stamp,
       last := obs, history := h, loiter := Loiter(h))
  }

  /** Its region membership and transition events. */
  function Judged(s: Snapshot, obs: Observation, roi: Roi): Snapshot {
    var now := Contains(roi, obs.cx, obs.cy);
    s.(inRoi := now, prevInRoi := s.inRoi, entered := now && !s.inRoi, exited := !now && s.inRoi)
  }

  function Updated(s: Snapshot, obs: Observation, roi: Roi): Snapshot {
    Judged(Remembered(Followed(s, obs), obs), obs, roi)
  }

  function MarkedMissed(s: Snapshot): Snapshot {
    s.(missed := s.missed + 1, sinceFirst := s.sinceFirst + 1, entered := false, exited := false)
  }

  function Visibility(s: Snapshot): real {
    if s.sinceFirst == 0 then 0.0 else s.seen as real / s.sinceFirst as real
  }

  /** uint32 milliseconds between first and last sighting. */
  function DurationMs(s: Snapshot): nat {
    if s.lastSeen <= s.firstSeen then 0 else (s.lastSeen - s.firstSeen) / 1000 % 0x1_0000_0000
  }

  datatype Status = Tentative | Active | Lost

  function StatusOf(s: Snapshot): Status {
    if s.missed > 0 then Lost else if s.seen < TENTATIVE_FRAMES then Tentative else Active
  }

  class TrackState {
    const id: nat
    const name: Name
    const firstSeen: nat
    var lastSeen: nat
    var seen: nat
    var sinceFirst: nat
    var missed: nat
    var last: Observation
    var history: seq<Observation>
    var vx: real
    var vy: real
    var loiter: real
    var inRoi: bool
    var prevInRoi: bool
    var entered: bool
    var exited: bool

    ghost function Value(): Snapshot
      reads this
    {
      Snapshot(id, name, firstSeen, lastSeen, seen, sinceFirst, missed, last, history,
               vx, vy, loiter, inRoi, prevInRoi, entered, exited)
    }

    constructor (id: nat, name: Name, stamp: nat)
      ensures Value() == Fresh(id, name, stamp)
    {
      this.id, this.name, firstSeen := id, Cut(name), stamp;
      lastSeen, seen, sinceFirst, missed := 0, 0, 0, 0;
      last, history := NO_OBSERVATION, [];
      vx, vy, loiter := 0.0, 0.0, 0.0;
      inRoi, prevInRoi, entered, exited := false, false, false, false;
    }

    method MarkMissed()
      modifies this
      ensures Value() == MarkedMissed(old(Value()))
    {
      missed := missed + 1;
      sinceFirst := sinceFirst + 1;
      entered := false;
      exited := false;
    }

    /** The loop over the history that finds the spread of the centroids. */
    method MeasureSpread() returns (spread: int)
      requires history != []
      ensures spread == Spread(history)
    {
      var xmin, xmax := history[0].cx, history[0].cx;
      var ymin, ymax := history[0].cy, history[0].cy;
      for i := 0 to |history|
        invariant i == 0 ==> xmin == xmax == history[0].cx && ymin == ymax == history[0].cy
        invariant i > 0 ==> xmin == MinX(history, i) && xmax == MaxX(history, i)
        invariant i > 0 ==> ymin == MinY(history, i) && ymax == MaxY(history, i)
      {
        xmin, xmax := Min(xmin, history[i].cx), Max(xmax, history[i].cx);
        ymin, ymax := Min(ymin, history[i].cy), Max(ymax, history[i].cy);
      }
      spread := Max(xmax - xmin, ymax - ymin);
    }

    method Follow(obs: Observation)
      modifies this
      ensures Value() == Followed(old(Value()), obs)
    {
      if seen != 0 {
        var us := Elapsed(obs.stamp, last.stamp);
        vx := Smoothed(vx, obs.cx - last.cx, us);
        vy := Smoothed(vy, obs.cy - last.cy, us);
      }
    }

    method MeasureLoiter() returns (score: real)
      ensures score == Loiter(history)
    {
      if |history| >= 4 {
        var spread := MeasureSpread();
        score := ScoreOf(spread);
      } else {
        score := 0.0;
      }
    }

    method Push(obs: Observation)
      modifies this`history
      ensures history == Pushed(old(history), obs)
    {
      history := history + [obs];
      if |history| > HISTORY_MAX {
        history := history[1..];
      }
    }

    method Remember(obs: Observation)
      modifies this
      ensures Value() == Remembered(old(Value()), obs)
    {
      seen := seen + 1;
      sinceFirst := sinceFirst + 1;
      missed := 0;
      lastSeen := obs.stamp;
      last := obs;
      Push(obs);
      loiter := MeasureLoiter();
    }

    method Update(obs: Observation, roi: Roi)
      modifies this
      ensures Value() == Updated(old(Value()), obs, roi)
    {
      Follow(obs);
      Remember(obs);
      prevInRoi := inRoi;
      inRoi := Contains(roi, obs.cx, obs.cy);
      entered := inRoi && !prevInRoi;
      exited := !inRoi && prevInRoi;
    }
  }
}
