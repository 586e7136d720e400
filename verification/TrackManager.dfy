/** The temporal manager: the live TrackStates by id, driven one frame at a time. */
module TrackManagers {
  import opened Wire
  import opened Tracker
  import opened TrackStates

  const MAX_FRAMES_LOST := 30

  type Snapshots = map<nat, Snapshot>

  // ---- one frame, on values ----

  /** find, or emplace. */
  function Added(m: Snapshots, id: nat, name: Name, stamp: nat): (r: Snapshots)
    ensures id in r
  {
    if id in m then m else m[id := Fresh(id, name, stamp)]
  }

  function UpdatedAt(m: Snapshots, id: nat, obs: Observation, roi: Roi): Snapshots
    requires id in m
  {
    m[id := Updated(m[id], obs, roi)]
  }

  /** What a record makes of its track, found or new. */
  function Sighted(m: Snapshots, roi: Roi, rec: Output, stamp: nat): Snapshot {
    Updated(if rec.id in m then m[rec.id] else Fresh(rec.id, rec.det.name, stamp), Seen(stamp, rec.det.box), roi)
  }

  /** observe(): id 0 is ignored, an unknown id starts a track. */
  function ObserveOne(m: Snapshots, roi: Roi, rec: Output, stamp: nat): Snapshots {
    if rec.id == 0 then m else m[rec.id := Sighted(m, roi, rec, stamp)]
  }

  lemma AddedThenUpdated(m: Snapshots, roi: Roi, rec: Output, stamp: nat)
    requires rec.id != 0
    ensures UpdatedAt(Added(m, rec.id, rec.det.name, stamp), rec.id, Seen(stamp, rec.det.box), roi)
            == ObserveOne(m, roi, rec, stamp)
  {
  }

  type Step = (Snapshots, Output) -> Snapshots

  /** The first n records of a frame, each handled by `step`. */
  function FoldRecords(m: Snapshots, step: Step, recs: seq<Output>, n: nat): Snapshots
    requires n <= |recs|
  {
    if n == 0 then m else step(FoldRecords(m, step, recs, n - 1), recs[n - 1])
  }

  function Observer(roi: Roi, stamp: nat): Step {
    (m, rec) => ObserveOne(m, roi, rec, stamp)
  }

  function ObserveAll(m: Snapshots, roi: Roi, recs: seq<Output>, stamp: nat, n: nat): Snapshots
    requires n <= |recs|
  {
    FoldRecords(m, Observer(roi, stamp), recs, n)
  }

  function MarkOne(seen: set<nat>, rec: Output): set<nat> {
    if rec.id == 0 then seen else seen + {rec.id}
  }

  /** The ids marked as seen by the first n records. */
  function Marks(recs: seq<Output>, n: nat): set<nat>
    requires n <= |recs|
  {
    if n == 0 then {} else MarkOne(Marks(recs, n - 1), recs[n - 1])
  }

  /** end_frame(): unseen tracks are marked missed, and dropped past the limit. */
  function Ended(m: Snapshots, seen: set<nat>): Snapshots {
    map id | id in m && (id in seen || m[id].missed + 1 <= MAX_FRAMES_LOST) ::
      if id in seen then m[id] else MarkedMissed(m[id])
  }

  /** Ended, while the ids in todo are still to be visited. */
  ghost function PartlyEnded(m: Snapshots, seen: set<nat>, todo: set<nat>): (r: Snapshots)
    ensures todo <= m.Keys ==> todo <= r.Keys
    ensures todo == {} ==> r == Ended(m, seen)
    ensures todo == m.Keys ==> r == m
  {
    map id | id in m && (id in todo || id in seen || m[id].missed + 1 <= MAX_FRAMES_LOST) ::
      if id in todo || id in seen then m[id] else MarkedMissed(m[id])
  }

  function AgedOne(m: Snapshots, id: nat): Snapshots
    requires id in m
  {
    if m[id].missed + 1 <= MAX_FRAMES_LOST then m[id := MarkedMissed(m[id])] else m - {id}
  }

  function Visited(m: Snapshots, seen: set<nat>, id: nat): Snapshots
    requires id in m
  {
    if id in seen then m else AgedOne(m, id)
  }

  lemma PartlyEndedStep(m: Snapshots, seen: set<nat>, todo: set<nat>, id: nat)
    requires id in todo && id in m
    ensures PartlyEnded(m, seen, todo - {id}) == Visited(PartlyEnded(m, seen, todo), seen, id)
  {
  }

  function FrameOf(m: Snapshots, roi: Roi, recs: seq<Output>, stamp: nat): Snapshots {
    Ended(ObserveAll(m, roi, recs, stamp, |recs|), Marks(recs, |recs|))
  }

  // ---- the manager ----

  class TrackManager {
    const roi: Roi
    var tracks: map<nat, TrackState>
    var seenNow: map<nat, bool>

    /** No two ids share a TrackState. */
    ghost predicate Valid()
      reads this
    {
      forall a, b :: a in tracks && b in tracks && a != b ==> tracks[a] != tracks[b]
    }

    ghost function Contents(): (m: Snapshots)
      reads this, tracks.Values
      ensures m.Keys == tracks.Keys
    {
      map id | id in tracks :: tracks[id].Value()
    }

    ghost function Marked(): set<nat>
      reads this
    {
      set id | id in seenNow && seenNow[id]
    }

    constructor (roi: Roi)
      ensures Valid() && Contents() == map[] && tracks == map[] && this.roi == roi
    {
      this.roi, tracks, seenNow := roi, map[], map[];
    }

    method BeginFrame()
      requires Valid()
      modifies this`seenNow
      ensures Valid() && Marked() == {} && Contents() == old(Contents())
    {
      seenNow := map id | id in tracks :: false;
    }

    /** find, or emplace. */
    method FindOrAdd(id: nat, name: Name, stamp: nat)
      requires Valid()
      modifies this`tracks
      ensures Valid() && id in tracks && (tracks[id] in old(tracks.Values) || fresh(tracks[id]))
          && fresh(tracks.Values - old(tracks.Values))
      ensures Contents() == Added(old(Contents()), id, name, stamp)
    {
      if id !in tracks {
        var t := new TrackState(id, name, stamp);
        tracks := tracks[id := t];
      }
    }

    method UpdateAt(id: nat, obs: Observation)
      requires Valid() && id in tracks
      modifies tracks[id]
      ensures Valid() && Contents() == UpdatedAt(old(Contents()), id, obs, roi)
    {
      ghost var was := Contents();
      ghost var target := Updated(was[id], obs, roi);
      tracks[id].Update(obs, roi);
      assert tracks[id].Value() == target;
      assert Contents().Keys == was.Keys;
      forall other | other in tracks && other != id
        ensures tracks[other].Value() == was[other]
      {
        assert tracks[other] != tracks[id];
      }
      assert Contents() == was[id := target];
    }

    method MarkSeen(id: nat)
      modifies this`seenNow
      ensures Contents() == old(Contents()) && Marked() == old(Marked()) + {id}
    {
      seenNow := seenNow[id := true];
    }

    method Touch(id: nat, name: Name, stamp: nat, obs: Observation)
      requires Valid()
      modifies this`tracks, tracks.Values
      ensures Valid() && fresh(tracks.Values - old(tracks.Values))
      ensures Contents() == UpdatedAt(Added(old(Contents()), id, name, stamp), id, obs, roi)
    {
      FindOrAdd(id, name, stamp);
      UpdateAt(id, obs);
    }

    method Observe(rec: Output, stamp: nat)
      requires Valid()
      modifies this`tracks, this`seenNow, tracks.Values
      ensures Valid() && fresh(tracks.Values - old(tracks.Values))
      ensures Contents() == ObserveOne(old(Contents()), roi, rec, stamp)
      ensures Marked() == MarkOne(old(Marked()), rec)
    {
      if rec.id == 0 {
        return;
      }
      ghost var m := Contents();
      AddedThenUpdated(m, roi, rec, stamp);
      MarkSeen(rec.id);
      Touch(rec.id, rec.det.name, stamp, Seen(stamp, rec.det.box));
    }

    method MarkMissedAt(id: nat)
      requires Valid() && id in tracks
      modifies tracks[id]
      ensures Valid() && Contents() == old(Contents())[id := MarkedMissed(old(Contents())[id])]
    {
      ghost var was := Contents();
      tracks[id].MarkMissed();
      forall other | other in tracks && other != id
        ensures tracks[other].Value() == was[other]
      {
        assert tracks[other] != tracks[id];
      }
    }

    method Erase(id: nat)
      requires Valid() && id in tracks
      modifies this`tracks
      ensures Valid() && tracks.Values <= old(tracks.Values) && Contents() == old(Contents()) - {id}
    {
      tracks := map other | other in tracks && other != id :: tracks[other];
    }

    /** Marked missed, and erased past the limit. */
    method AgeAt(id: nat)
      requires Valid() && id in tracks
      modifies this`tracks, tracks[id]
      ensures Valid() && tracks.Values <= old(tracks.Values)
      ensures Contents() == AgedOne(old(Contents()), id)
    {
      ghost var was := Contents();
      MarkMissedAt(id);
      assert Contents()[id] == MarkedMissed(was[id]);
      if tracks[id].missed > MAX_FRAMES_LOST {
        Erase(id);
        assert Contents() == was - {id};
      }
    }

    /** The body of the erase-while-iterating loop. */
    method Visit(id: nat, ghost was: Snapshots, ghost todo: set<nat>)
      requires Valid() && id in todo && todo <= tracks.Keys && Contents() == PartlyEnded(was, Marked(), todo)
      modifies this`tracks, tracks[id]
      ensures Valid() && tracks.Values <= old(tracks.Values) && todo - {id} <= tracks.Keys
      ensures Contents() == PartlyEnded(was, Marked(), todo - {id})
    {
      PartlyEndedStep(was, Marked(), todo, id);
      if !(id in seenNow && seenNow[id]) {
        AgeAt(id);
      }
    }

    /** The whole loop, in an arbitrary order of ids. */
    method AgeUnseen()
      requires Valid()
      modifies this`tracks, tracks.Values
      ensures Valid() && tracks.Values <= old(tracks.Values) && Marked() == old(Marked())
      ensures Contents() == Ended(old(Contents()), Marked())
    {
      ghost var was, mine := Contents(), tracks.Values;
      var todo := tracks.Keys;
      while todo != {}
        invariant Valid() && todo <= tracks.Keys && tracks.Values <= mine
        invariant Contents() == PartlyEnded(was, Marked(), todo)
        decreases todo
      {
        var id :| id in todo;
        assert tracks[id] in tracks.Values;
        Visit(id, was, todo);
        todo := todo - {id};
      }
    }

    /** The view holds every live track exactly once. */
    ghost predicate Lists(view: seq<TrackState>)
      reads this
    {
      && |view| == |tracks|
      && (forall i :: 0 <= i < |view| ==> view[i] in tracks.Values)
      && (forall id :: id in tracks ==> tracks[id] in view)
      && forall i, j :: 0 <= i < j < |view| ==> view[i] != view[j]
    }

    /** The flat view: every live track exactly once. */
    method BuildView() returns (view: seq<TrackState>)
      requires Valid()
      ensures Valid() && Contents() == old(Contents()) && Marked() == old(Marked())
      ensures Lists(view)
    {
      view := [];
      var todo := tracks.Keys;
      while todo != {}
        invariant todo <= tracks.Keys && |view| + |todo| == |tracks|
        invariant forall t :: t in view ==> exists id :: id in tracks && id !in todo && tracks[id] == t
        invariant forall i :: 0 <= i < |view| ==> view[i] in tracks.Values
        invariant forall id :: id in tracks && id !in todo ==> tracks[id] in view
        invariant forall i, j :: 0 <= i < j < |view| ==> view[i] != view[j]
        decreases todo
      {
        var id :| id in todo;
        assert tracks[id] !in view;
        todo := todo - {id};
        view := view + [tracks[id]];
      }
    }

    method EndFrame() returns (view: seq<TrackState>)
      requires Valid()
      modifies this`tracks, tracks.Values
      ensures Valid() && Contents() == Ended(old(Contents()), old(Marked())) && Lists(view)
    {
      ghost var ended := Ended(Contents(), Marked());
      AgeUnseen();
      assert Contents() == ended;
      view := BuildView();
    }

    method ObserveRecords(recs: seq<Output>, stamp: nat)
      requires Valid() && Marked() == {}
      modifies this`tracks, this`seenNow, tracks.Values
      ensures Valid() && fresh(tracks.Values - old(tracks.Values))
      ensures Contents() == ObserveAll(old(Contents()), roi, recs, stamp, |recs|) && Marked() == Marks(recs, |recs|)
    {
      ghost var was := Contents();
      for i := 0 to |recs|
        invariant Valid() && fresh(tracks.Values - old(tracks.Values))
        invariant Contents() == ObserveAll(was, roi, recs, stamp, i) && Marked() == Marks(recs, i)
      {
        Observe(recs[i], stamp);
      }
    }

    /** One frame of the temporal service. */
    method ProcessFrame(recs: seq<Output>, stamp: nat) returns (view: seq<TrackState>)
      requires Valid()
      modifies this`tracks, this`seenNow, tracks.Values
      ensures Valid() && Contents() == FrameOf(old(Contents()), roi, recs, stamp)
      ensures Lists(view)
    {
      ghost var was, mine := Contents(), tracks.Values;
      BeginFrame();
      ObserveRecords(recs, stamp);
      ghost var observed, marked := Contents(), Marked();
      assert observed == ObserveAll(was, roi, recs, stamp, |recs|) && marked == Marks(recs, |recs|);
      assert fresh(tracks.Values - mine);
      view := EndFrame();
      assert Contents() == Ended(observed, marked);
    }
  }

  lemma KeysSize<A, B>(m: map<nat, A>, n: map<nat, B>)
    requires m.Keys == n.Keys
    ensures |m| == |n|
  {
    assert |m| == |m.Keys| && |n| == |n.Keys|;
  }
}
