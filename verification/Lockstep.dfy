/** The tracker and the temporal manager age tracks independently; over a link
    that loses no frame they agree on every id, every age and every class. */
module Lockstep {
  import opened Wire
  import opened Tracker
  import opened TrackerFacts
  import opened TrackStates
  import opened TrackManagers
  import opened TrackLife

  /** The outputs as the temporal service receives them. */
  function Relayed(outs: seq<Output>): (r: seq<Output>)
    ensures |r| == |outs|
    ensures forall d :: 0 <= d < |r| ==> r[d] == outs[d].(det := outs[d].det.(name := Cut(outs[d].det.name)))
  {
    if outs == [] then []
    else
      var o := outs[0];
      [o.(det := o.det.(name := Cut(o.det.name)))] + Relayed(outs[1..])
  }

  /** A frame's records carry distinct ids, none of them 0. */
  ghost predicate Proper(recs: seq<Output>) {
    && (forall d :: 0 <= d < |recs| ==> recs[d].id != 0)
    && (forall d, e :: 0 <= d < e < |recs| ==> recs[d].id != recs[e].id)
  }

  lemma CutTwice(name: Name)
    ensures Cut(Cut(name)) == Cut(name)
  {
  }

  // ---- one frame of the manager ----

  /** The record among the first n that carries the id, or -1. */
  function IndexOf(recs: seq<Output>, n: nat, id: nat): (d: int)
    requires n <= |recs|
    ensures -1 <= d < n && (d >= 0 ==> recs[d].id == id)
  {
    if n == 0 then -1 else if recs[n - 1].id == id then n - 1 else IndexOf(recs, n - 1, id)
  }

  lemma {:induction false} IndexOfRecord(recs: seq<Output>, n: nat, d: nat)
    requires Proper(recs) && d < |recs| && n <= |recs|
    ensures IndexOf(recs, n, recs[d].id) == if d < n then d else -1
  {
    if n > 0 && d != n - 1 {
      IndexOfRecord(recs, n - 1, d);
    }
  }

  ghost predicate SameAt(r: Snapshots, m: Snapshots, id: nat) {
    (id in r <==> id in m) && (id in m ==> r[id] == m[id])
  }

  /** The effect of the first n records on one id; `sights` lists what each record
      makes of its track. */
  ghost predicate ObservedAt(m: Snapshots, recs: seq<Output>, sights: seq<Snapshot>, n: nat, r: Snapshots, id: nat)
    requires n <= |recs| == |sights|
  {
    var d := IndexOf(recs, n, id);
    if d >= 0 then id in r && r[id] == sights[d] else SameAt(r, m, id)
  }

  /** On a state that agrees with m about a record's id, the step writes the sight. */
  ghost predicate Writes(m: Snapshots, step: Step, recs: seq<Output>, sights: seq<Snapshot>)
    requires |recs| == |sights|
  {
    forall r: Snapshots, d: nat :: d < |recs| && SameAt(r, m, recs[d].id) ==>
      step(r, recs[d]) == r[recs[d].id := sights[d]]
  }

  lemma {:induction false} FoldDoes(m: Snapshots, step: Step, recs: seq<Output>, sights: seq<Snapshot>, n: nat, id: nat)
    requires Proper(recs) && n <= |recs| == |sights| && Writes(m, step, recs, sights)
    ensures ObservedAt(m, recs, sights, n, FoldRecords(m, step, recs, n), id)
  {
    if n > 0 {
      FoldDoes(m, step, recs, sights, n - 1, id);
      FoldDoes(m, step, recs, sights, n - 1, recs[n - 1].id);
      IndexOfRecord(recs, n - 1, n - 1);
      assert SameAt(FoldRecords(m, step, recs, n - 1), m, recs[n - 1].id);
    }
  }

  lemma ObserverWrites(m: Snapshots, roi: Roi, recs: seq<Output>, stamp: nat, sights: seq<Snapshot>)
    requires Proper(recs) && |recs| == |sights|
    requires forall d :: 0 <= d < |recs| ==> sights[d] == Sighted(m, roi, recs[d], stamp)
    ensures Writes(m, Observer(roi, stamp), recs, sights)
  {
  }

  lemma {:induction false} MarksAreIds(recs: seq<Output>, n: nat, id: nat)
    requires Proper(recs) && n <= |recs|
    ensures id in Marks(recs, n) <==> IndexOf(recs, n, id) >= 0
  {
    if n > 0 {
      MarksAreIds(recs, n - 1, id);
    }
  }

  /** One frame: reported tracks are refreshed or started, the others are marked
      missed, and dropped at the limit. */
  ghost predicate FrameMoved(m: Snapshots, roi: Roi, recs: seq<Output>, stamp: nat, r: Snapshots) {
    && (forall d :: 0 <= d < |recs| ==> recs[d].id in r && r[recs[d].id] == Sighted(m, roi, recs[d], stamp))
    && (forall id :: id in r && id !in OutIds(recs) ==>
          id in m && m[id].missed < MAX_FRAMES_LOST && r[id] == MarkedMissed(m[id]))
    && (forall id :: id in m && id !in OutIds(recs) && m[id].missed < MAX_FRAMES_LOST ==> id in r)
  }

  lemma FrameDoes(m: Snapshots, roi: Roi, recs: seq<Output>, stamp: nat)
    requires Proper(recs)
    ensures FrameMoved(m, roi, recs, stamp, FrameOf(m, roi, recs, stamp))
  {
    var sights := seq(|recs|, d requires 0 <= d < |recs| => Sighted(m, roi, recs[d], stamp));
    ObserverWrites(m, roi, recs, stamp, sights);
    var r := ObserveAll(m, roi, recs, stamp, |recs|);
    forall id: nat
      ensures ObservedAt(m, recs, sights, |recs|, r, id)
          && (id in Marks(recs, |recs|) <==> IndexOf(recs, |recs|, id) >= 0)
    {
      FoldDoes(m, Observer(roi, stamp), recs, sights, |recs|, id);
      MarksAreIds(recs, |recs|, id);
    }
    EndedMoved(m, roi, recs, stamp, sights, r);
  }

  lemma {:induction false} EndedMoved(m: Snapshots, roi: Roi, recs: seq<Output>, stamp: nat, sights: seq<Snapshot>,
                                      r: Snapshots)
    requires Proper(recs) && |recs| == |sights|
    requires forall d :: 0 <= d < |recs| ==> sights[d] == Sighted(m, roi, recs[d], stamp)
    requires forall id: nat :: ObservedAt(m, recs, sights, |recs|, r, id)
    requires forall id: nat :: id in Marks(recs, |recs|) <==> IndexOf(recs, |recs|, id) >= 0
    ensures FrameMoved(m, roi, recs, stamp, Ended(r, Marks(recs, |recs|)))
  {
    var e := Ended(r, Marks(recs, |recs|));
    forall d | 0 <= d < |recs|
      ensures recs[d].id in e && e[recs[d].id] == sights[d]
    {
      IndexOfRecord(recs, |recs|, d);
      assert ObservedAt(m, recs, sights, |recs|, r, recs[d].id);
    }
    forall id: nat | id !in OutIds(recs)
      ensures id !in Marks(recs, |recs|) && SameAt(r, m, id)
    {
      assert ObservedAt(m, recs, sights, |recs|, r, id);
      FoundIsReported(recs, id);
    }
  }

  lemma FoundIsReported(recs: seq<Output>, id: nat)
    ensures IndexOf(recs, |recs|, id) >= 0 ==> id in OutIds(recs)
  {
    var d := IndexOf(recs, |recs|, id);
    if d >= 0 {
      assert recs[d] in recs;
    }
  }

  // ---- lockstep ----

  ghost predicate Matches(tr: Track, s: Snapshot) {
    && s.id == tr.id && s.missed == tr.unseen && s.seen > 0
    && s.name == Cut(tr.det.name) && s.last.box == tr.det.box
  }

  /** Same ids; and per id the same age, class and box. */
  ghost predicate Linked(s: TrackerState, m: Snapshots) {
    && Sound(s) && m.Keys == Live(s.tracks).Keys
    && forall id :: id in m ==> Matches(Live(s.tracks)[id], m[id])
  }

  lemma RelayedIds(outs: seq<Output>)
    ensures OutIds(Relayed(outs)) == OutIds(outs)
  {
    forall id | id in OutIds(outs)
      ensures id in OutIds(Relayed(outs))
    {
      var d :| 0 <= d < |outs| && outs[d].id == id;
      assert Relayed(outs)[d] in Relayed(outs);
    }
  }

  lemma ReportedProper(s: TrackerState, dets: seq<Det>, outs: seq<Output>, nextId: nat)
    requires Sound(s) && Reported(s, dets, outs, nextId)
    ensures Proper(Relayed(outs))
  {
    forall d | 0 <= d < |outs|
      ensures outs[d].id != 0
    {
      assert Origin(s, outs[d], nextId);
    }
  }

  lemma SightedMatches(s: TrackerState, m: Snapshots, roi: Roi, o: Output, stamp: nat, frame: nat, nextId: nat)
    requires Linked(s, m) && Origin(s, o, nextId)
    ensures var rec := o.(det := o.det.(name := Cut(o.det.name)));
      Matches(Track(o.id, o.det, 0, frame), Sighted(m, roi, rec, stamp))
  {
    CutTwice(o.det.name);
  }

  lemma ReportedMatches(L: map<nat, Track>, m: Snapshots, roi: Roi, frame: nat, stamp: nat,
                        outs: seq<Output>, L': map<nat, Track>, m': Snapshots, id: nat)
    requires Moved(L, frame, outs, L') && FrameMoved(m, roi, Relayed(outs), stamp, m')
    requires forall d :: 0 <= d < |outs| ==>
               Matches(Track(outs[d].id, outs[d].det, 0, frame), Sighted(m, roi, Relayed(outs)[d], stamp))
    requires id in OutIds(outs)
    ensures id in L' && id in m' && Matches(L'[id], m'[id])
  {
    var d :| 0 <= d < |outs| && outs[d].id == id;
    assert outs[d] in outs;
    assert Relayed(outs)[d].id == id;
  }

  lemma AgedMatches(L: map<nat, Track>, m: Snapshots, roi: Roi, frame: nat, stamp: nat,
                    outs: seq<Output>, L': map<nat, Track>, m': Snapshots, id: nat)
    requires id in m <==> id in L
    requires id in m ==> Matches(L[id], m[id])
    requires Moved(L, frame, outs, L') && FrameMoved(m, roi, Relayed(outs), stamp, m')
    requires id !in OutIds(outs)
    ensures id in L' <==> id in m'
    ensures id in m' ==> Matches(L'[id], m'[id])
  {
    RelayedIds(outs);
  }

  /** Both stages hold id, and agree on it, or neither does. */
  ghost predicate AgreeOn(L: map<nat, Track>, m: Snapshots, id: nat) {
    (id in L <==> id in m) && (id in m ==> Matches(L[id], m[id]))
  }

  ghost predicate Agree(L: map<nat, Track>, m: Snapshots) {
    forall id :: AgreeOn(L, m, id)
  }

  lemma MovedMatches(L: map<nat, Track>, m: Snapshots, roi: Roi, frame: nat, stamp: nat,
                     outs: seq<Output>, L': map<nat, Track>, m': Snapshots)
    requires Agree(L, m)
    requires Moved(L, frame, outs, L') && FrameMoved(m, roi, Relayed(outs), stamp, m')
    requires forall d :: 0 <= d < |outs| ==>
               Matches(Track(outs[d].id, outs[d].det, 0, frame), Sighted(m, roi, Relayed(outs)[d], stamp))
    ensures Agree(L', m')
  {
    forall id
      ensures AgreeOn(L', m', id)
    {
      if id in OutIds(outs) {
        ReportedMatches(L, m, roi, frame, stamp, outs, L', m', id);
      } else {
        assert AgreeOn(L, m, id);
        AgedMatches(L, m, roi, frame, stamp, outs, L', m', id);
      }
    }
  }

  lemma AgreeLinks(s: TrackerState, m: Snapshots)
    requires Sound(s)
    ensures Linked(s, m) <==> Agree(Live(s.tracks), m)
  {
    if Linked(s, m) {
      forall id
        ensures AgreeOn(Live(s.tracks), m, id)
      {
      }
    }
    if Agree(Live(s.tracks), m) {
      forall id
        ensures id in m <==> id in Live(s.tracks)
        ensures id in m ==> Matches(Live(s.tracks)[id], m[id])
      {
        assert AgreeOn(Live(s.tracks), m, id);
      }
    }
  }

  /** A losslessly relayed frame keeps tracker and manager in lockstep. */
  lemma FrameKeepsLink(s: TrackerState, m: Snapshots, roi: Roi, frame: nat, stamp: nat, dets: seq<Det>)
    requires Linked(s, m)
    ensures var (n, outs) := Update(s, frame, dets);
      Linked(n, FrameOf(m, roi, Relayed(outs), stamp))
  {
    var (n, outs) := Update(s, frame, dets);
    UpdateMoves(s, frame, dets);
    ReportedProper(s, dets, outs, n.nextId);
    FrameDoes(m, roi, Relayed(outs), stamp);
    forall d | 0 <= d < |outs|
      ensures Matches(Track(outs[d].id, outs[d].det, 0, frame), Sighted(m, roi, Relayed(outs)[d], stamp))
    {
      SightedMatches(s, m, roi, outs[d], stamp, frame, n.nextId);
    }
    AgreeLinks(s, m);
    MovedMatches(Live(s.tracks), m, roi, frame, stamp, outs, Live(n.tracks), FrameOf(m, roi, Relayed(outs), stamp));
    AgreeLinks(n, FrameOf(m, roi, Relayed(outs), stamp));
  }

  // ---- runs ----

  /** One frame of detections with its header's frame id and timestamp. */
  datatype Input = Input(frame: nat, stamp: nat, dets: seq<Det>)

  datatype Stages = Stages(tracker: TrackerState, manager: Snapshots)

  const START := Stages(TrackerState([], 1), map[])

  function Advance(s: Stages, roi: Roi, i: Input): Stages {
    var (n, outs) := Update(s.tracker, i.frame, i.dets);
    Stages(n, FrameOf(s.manager, roi, Relayed(outs), i.stamp))
  }

  ghost predicate StepAt(roi: Roi, inputs: seq<Input>, run: seq<Stages>, i: nat)
    requires i < |inputs| && |run| == |inputs| + 1
  {
    run[i + 1] == Advance(run[i], roi, inputs[i])
  }

  /** run[i] is the state of the two stages after the first i frames. */
  ghost predicate Run(roi: Roi, inputs: seq<Input>, run: seq<Stages>) {
    && |run| == |inputs| + 1 && run[0] == START
    && forall i: nat :: i < |inputs| ==> StepAt(roi, inputs, run, i)
  }

  lemma StartLinked()
    ensures Linked(START.tracker, START.manager)
  {
    assert Live([]) == map[];
  }

  /** After every run of relayed frames the two stages hold the same ids, with
      the same ages and classes. */
  lemma {:induction false} AlwaysLinked(roi: Roi, inputs: seq<Input>, run: seq<Stages>, n: nat)
    requires Run(roi, inputs, run) && n <= |inputs|
    ensures var s := run[n]; Linked(s.tracker, s.manager)
  {
    if n == 0 {
      StartLinked();
    } else {
      AlwaysLinked(roi, inputs, run, n - 1);
      assert StepAt(roi, inputs, run, n - 1);
      var s := run[n - 1];
      FrameKeepsLink(s.tracker, s.manager, roi, inputs[n - 1].frame, inputs[n - 1].stamp, inputs[n - 1].dets);
    }
  }

  /** From s to t: tracker ids only grow, an id that is live before and after keeps
      its first sighting and class, and an id that appears was never used. */
  ghost predicate IdentityKept(s: Stages, t: Stages) {
    && t.tracker.nextId >= s.tracker.nextId
    && (forall id :: id in t.manager && id in s.manager ==>
          t.manager[id].firstSeen == s.manager[id].firstSeen && t.manager[id].name == s.manager[id].name)
    && (forall id :: id in t.manager && id !in s.manager ==> id >= s.tracker.nextId)
  }

  lemma IdentityComposes(s: Stages, t: Stages, u: Stages)
    requires IdentityKept(s, t) && IdentityKept(t, u)
    requires forall id :: id in s.manager ==> id < s.tracker.nextId
    ensures IdentityKept(s, u)
  {
  }

  lemma SightedIdentity(m: Snapshots, roi: Roi, rec: Output, stamp: nat)
    ensures var s := Sighted(m, roi, rec, stamp);
      && (rec.id in m ==> s.firstSeen == m[rec.id].firstSeen && s.name == m[rec.id].name)
      && (rec.id !in m ==> s.firstSeen == stamp)
  {
  }

  lemma MovedIdentity(m: Snapshots, roi: Roi, recs: seq<Output>, stamp: nat, r: Snapshots, id: nat)
    requires FrameMoved(m, roi, recs, stamp, r) && id in r
    ensures id in m ==> r[id].firstSeen == m[id].firstSeen && r[id].name == m[id].name
    ensures id !in m ==> id in OutIds(recs) && r[id].firstSeen == stamp
  {
    if id in OutIds(recs) {
      var d :| 0 <= d < |recs| && recs[d].id == id;
      SightedIdentity(m, roi, recs[d], stamp);
    }
  }

  lemma NewIdsAreNew(s: TrackerState, dets: seq<Det>, outs: seq<Output>, nextId: nat, id: nat)
    requires Sound(s) && Reported(s, dets, outs, nextId) && id in OutIds(outs) && id !in Live(s.tracks)
    ensures id >= s.nextId
  {
    var d :| 0 <= d < |outs| && outs[d].id == id;
    assert Origin(s, outs[d], nextId);
  }

  /** One frame keeps every identity; an id that appears is first seen now. */
  lemma FrameKeepsIdentity(s: Stages, roi: Roi, i: Input)
    requires Linked(s.tracker, s.manager)
    ensures var t := Advance(s, roi, i);
      && IdentityKept(s, t)
      && (forall id :: id in t.manager && id !in s.manager ==> t.manager[id].firstSeen == i.stamp)
  {
    var (n, outs) := Update(s.tracker, i.frame, i.dets);
    UpdateMoves(s.tracker, i.frame, i.dets);
    ReportedProper(s.tracker, i.dets, outs, n.nextId);
    FrameDoes(s.manager, roi, Relayed(outs), i.stamp);
    RelayedIds(outs);
    var m := FrameOf(s.manager, roi, Relayed(outs), i.stamp);
    forall id | id in m
      ensures id in s.manager ==> m[id].firstSeen == s.manager[id].firstSeen && m[id].name == s.manager[id].name
      ensures id !in s.manager ==> id >= s.tracker.nextId && m[id].firstSeen == i.stamp
    {
      MovedIdentity(s.manager, roi, Relayed(outs), i.stamp, m, id);
      if id !in s.manager {
        NewIdsAreNew(s.tracker, i.dets, outs, n.nextId, id);
      }
    }
  }

  /** An id dropped by either stage is never revived by the other, and an id has
      one first-seen time and one class for as long as it lives. */
  lemma {:induction false} IdentityIsStable(roi: Roi, inputs: seq<Input>, run: seq<Stages>, i: nat, j: nat)
    requires Run(roi, inputs, run) && i <= j <= |inputs|
    ensures IdentityKept(run[i], run[j])
  {
    if i < j {
      var r, s := run[i], run[j - 1];
      IdentityIsStable(roi, inputs, run, i, j - 1);
      AlwaysLinked(roi, inputs, run, j - 1);
      assert StepAt(roi, inputs, run, j - 1);
      FrameKeepsIdentity(s, roi, inputs[j - 1]);
      AlwaysLinked(roi, inputs, run, i);
      IdsBelow(r);
      IdentityComposes(r, s, run[j]);
    }
  }

  lemma IdsBelow(s: Stages)
    requires Linked(s.tracker, s.manager)
    ensures forall id :: id in s.manager ==> id < s.tracker.nextId
  {
    forall id | id in s.manager
      ensures id < s.tracker.nextId
    {
      assert Live(s.tracker.tracks)[id] in s.tracker.tracks;
    }
  }

  /** Once gone, an id never comes back. */
  lemma NeverRevived(roi: Roi, inputs: seq<Input>, run: seq<Stages>, i: nat, j: nat, k: nat, id: nat)
    requires Run(roi, inputs, run) && i <= j <= k <= |inputs|
    requires id in run[i].manager && id !in run[j].manager
    ensures id !in run[k].manager
    ensures Sound(run[k].tracker) && id !in Live(run[k].tracker.tracks)
  {
    AlwaysLinked(roi, inputs, run, i);
    IdsBelow(run[i]);
    AlwaysLinked(roi, inputs, run, k);
    IdentityIsStable(roi, inputs, run, i, j);
    IdentityIsStable(roi, inputs, run, j, k);
  }

  /** With at most 64 detections a frame, neither stage ever holds more than
      64 * 31 tracks, so the 16-bit count of a published frame is exact. */
  lemma CountFits(roi: Roi, inputs: seq<Input>, run: seq<Stages>, n: nat)
    requires Run(roi, inputs, run) && n <= |inputs|
    requires forall i :: 0 <= i < |inputs| ==> |inputs[i].dets| <= 64
    ensures var s := run[n];
      && |s.tracker.tracks| <= 64 * 31 && |s.manager| <= 64 * 31 < 0x1_0000
  {
    AlwaysLinked(roi, inputs, run, n);
    RunBounded(roi, inputs, run, n);
    var s := run[n];
    BoundedSize(Live(s.tracker.tracks));
    KeysSize(s.manager, Live(s.tracker.tracks));
    IdsSize(s.tracker.tracks);
    KeysAreIds(s.tracker.tracks);
  }

  ghost function Ids(tracks: seq<Track>): set<nat> {
    set t | t in tracks :: t.id
  }

  lemma KeysAreIds(tracks: seq<Track>)
    requires Distinct(tracks)
    ensures |Live(tracks)| == |Ids(tracks)|
  {
    assert Live(tracks).Keys == Ids(tracks);
    assert |Live(tracks)| == |Live(tracks).Keys|;
  }

  lemma {:induction false} IdsSize(tracks: seq<Track>)
    requires Distinct(tracks)
    ensures |Ids(tracks)| == |tracks|
  {
    if tracks != [] {
      var rest := tracks[1..];
      IdsSize(rest);
      assert tracks[0].id !in Ids(rest);
      assert tracks == [tracks[0]] + rest;
      assert Ids(tracks) == {tracks[0].id} + Ids(rest);
    }
  }

  ghost predicate BoundedTracker(s: Stages) {
    Sound(s.tracker) && Bounded(Live(s.tracker.tracks))
  }

  lemma AdvanceKeepsBounded(s: Stages, roi: Roi, i: Input)
    requires BoundedTracker(s) && |i.dets| <= 64
    ensures BoundedTracker(Advance(s, roi, i))
  {
    var (t, outs) := Update(s.tracker, i.frame, i.dets);
    UpdateMoves(s.tracker, i.frame, i.dets);
    MovedBounded(Live(s.tracker.tracks), i.frame, outs, Live(t.tracks));
  }

  lemma StepKeepsBounded(roi: Roi, inputs: seq<Input>, run: seq<Stages>, n: nat)
    requires Run(roi, inputs, run) && n < |inputs| && |inputs[n].dets| <= 64
    requires BoundedTracker(run[n])
    ensures BoundedTracker(run[n + 1])
  {
    assert StepAt(roi, inputs, run, n);
    AdvanceKeepsBounded(run[n], roi, inputs[n]);
  }

  lemma StartBounded()
    ensures BoundedTracker(START)
  {
    StartLinked();
    assert forall u :: UnseenFor(Live([]), u) == {};
  }

  lemma {:induction false} RunBounded(roi: Roi, inputs: seq<Input>, run: seq<Stages>, n: nat)
    requires Run(roi, inputs, run) && n <= |inputs|
    requires forall i :: 0 <= i < |inputs| ==> |inputs[i].dets| <= 64
    ensures BoundedTracker(run[n])
  {
    if n == 0 {
      StartBounded();
    } else {
      RunBounded(roi, inputs, run, n - 1);
      StepKeepsBounded(roi, inputs, run, n - 1);
    }
  }

  // ---- lives ----

  /** What the temporal service receives in frame i. */
  function RecordsAt(inputs: seq<Input>, run: seq<Stages>, i: nat): seq<Output>
    requires i < |inputs| < |run|
  {
    Relayed(Update(run[i].tracker, inputs[i].frame, inputs[i].dets).1)
  }

  /** What a frame's records say of an id. */
  function Sighting(recs: seq<Output>, stamp: nat, id: nat): Event {
    var d := IndexOf(recs, |recs|, id);
    if d >= 0 then Observe(Seen(stamp, recs[d].det.box)) else Miss
  }

  function EventAt(inputs: seq<Input>, run: seq<Stages>, i: nat, id: nat): Event
    requires i < |inputs| < |run|
  {
    Sighting(RecordsAt(inputs, run, i), inputs[i].stamp, id)
  }

  /** What the frames say of an id, one event a frame. */
  ghost predicate IsStory(inputs: seq<Input>, run: seq<Stages>, id: nat, story: seq<Event>)
    requires |inputs| < |run|
  {
    |story| == |inputs| &&
    forall i {:trigger EventAt(inputs, run, i, id)} :: 0 <= i < |story| ==> story[i] == EventAt(inputs, run, i, id)
  }

  function Story(inputs: seq<Input>, run: seq<Stages>, id: nat): (r: seq<Event>)
    requires |inputs| < |run|
    ensures IsStory(inputs, run, id, r)
  {
    seq(|inputs|, i requires 0 <= i < |inputs| < |run| => EventAt(inputs, run, i, id))
  }

  /** The track a record of the frame starts, under the record's name. */
  function Started(recs: seq<Output>, stamp: nat, id: nat): Snapshot
    requires IndexOf(recs, |recs|, id) >= 0
  {
    Fresh(id, recs[IndexOf(recs, |recs|, id)].det.name, stamp)
  }

  ghost predicate FirstIn(inputs: seq<Input>, run: seq<Stages>, f: nat, id: nat)
    requires f < |inputs| < |run|
  {
    id !in run[f].manager && IndexOf(RecordsAt(inputs, run, f), |RecordsAt(inputs, run, f)|, id) >= 0
  }

  function Happened(s: Snapshot, e: Event, roi: Roi): Snapshot {
    if e.Observe? then Updated(s, e.obs, roi) else MarkedMissed(s)
  }

  /** What events f .. n - 1 of the story make of a track. */
  function Retold(s: Snapshot, roi: Roi, story: seq<Event>, f: nat, n: nat): Snapshot
    requires f <= n <= |story|
  {
    if n == f then s else Happened(Retold(s, roi, story, f, n - 1), story[n - 1], roi)
  }

  lemma {:induction false} RetoldIsAfter(s: Snapshot, roi: Roi, story: seq<Event>, f: nat, n: nat, events: seq<Event>)
    requires f <= n <= |story| && events == story[f..n]
    ensures Retold(s, roi, story, f, n) == TrackLife.After(s, roi, events)
  {
    if n > f {
      RetoldIsAfter(s, roi, story, f, n - 1, events[..|events| - 1]);
      assert events[|events| - 1] == story[n - 1];
    }
  }

  /** The track appeared in frame f, and its features are what frames f .. n - 1
      of the story make of it. */
  ghost predicate Told(roi: Roi, inputs: seq<Input>, run: seq<Stages>, story: seq<Event>, f: nat, n: nat, id: nat)
    requires |story| == |inputs| < |run|
  {
    && f < n <= |inputs| && FirstIn(inputs, run, f, id) && id in run[n].manager
    && run[n].manager[id] == Retold(Started(RecordsAt(inputs, run, f), inputs[f].stamp, id), roi, story, f, n)
  }

  /** One frame does to a track what its records say. */
  lemma FrameTells(m: Snapshots, roi: Roi, recs: seq<Output>, stamp: nat, id: nat)
    requires Proper(recs) && id in FrameOf(m, roi, recs, stamp)
    ensures id !in m ==> IndexOf(recs, |recs|, id) >= 0
    ensures FrameOf(m, roi, recs, stamp)[id] ==
            Happened(if id in m then m[id] else Started(recs, stamp, id), Sighting(recs, stamp, id), roi)
  {
    FrameDoes(m, roi, recs, stamp);
    if id in OutIds(recs) {
      var d :| 0 <= d < |recs| && recs[d].id == id;
      IndexOfRecord(recs, |recs|, d);
    } else {
      FoundIsReported(recs, id);
    }
  }

  lemma StepTells(roi: Roi, inputs: seq<Input>, run: seq<Stages>, n: nat, id: nat)
    requires Run(roi, inputs, run) && n < |inputs| && id in run[n + 1].manager
    ensures Proper(RecordsAt(inputs, run, n))
    ensures run[n + 1].manager == FrameOf(run[n].manager, roi, RecordsAt(inputs, run, n), inputs[n].stamp)
  {
    AlwaysLinked(roi, inputs, run, n);
    assert StepAt(roi, inputs, run, n);
    var s, i := run[n].tracker, inputs[n];
    UpdateMoves(s, i.frame, i.dets);
    var (t, outs) := Update(s, i.frame, i.dets);
    ReportedProper(s, i.dets, outs, t.nextId);
  }

  /** A frame of a run does to a track what its records say. */
  lemma RunGoesOn(roi: Roi, inputs: seq<Input>, run: seq<Stages>, i: nat, id: nat)
    requires Run(roi, inputs, run) && i < |inputs| && id in run[i].manager && id in run[i + 1].manager
    ensures run[i + 1].manager[id] == Happened(run[i].manager[id], EventAt(inputs, run, i, id), roi)
  {
    StepTells(roi, inputs, run, i, id);
    FrameTells(run[i].manager, roi, RecordsAt(inputs, run, i), inputs[i].stamp, id);
  }

  /** It starts a track only from a record. */
  lemma RunStarts(roi: Roi, inputs: seq<Input>, run: seq<Stages>, i: nat, id: nat)
    requires Run(roi, inputs, run) && i < |inputs| && id !in run[i].manager && id in run[i + 1].manager
    ensures FirstIn(inputs, run, i, id)
    ensures run[i + 1].manager[id] ==
            Happened(Started(RecordsAt(inputs, run, i), inputs[i].stamp, id), EventAt(inputs, run, i, id), roi)
  {
    StepTells(roi, inputs, run, i, id);
    FrameTells(run[i].manager, roi, RecordsAt(inputs, run, i), inputs[i].stamp, id);
  }

  lemma StartsTold(roi: Roi, inputs: seq<Input>, run: seq<Stages>, story: seq<Event>, f: nat, id: nat)
    requires Run(roi, inputs, run) && IsStory(inputs, run, id, story)
    requires f < |inputs| && id !in run[f].manager && id in run[f + 1].manager
    ensures Told(roi, inputs, run, story, f, f + 1, id)
  {
    RunStarts(roi, inputs, run, f, id);
  }

  lemma GoesOnTold(roi: Roi, inputs: seq<Input>, run: seq<Stages>, story: seq<Event>, f: nat, n: nat, id: nat)
    requires Run(roi, inputs, run) && IsStory(inputs, run, id, story)
    requires n < |inputs| && Told(roi, inputs, run, story, f, n, id) && id in run[n + 1].manager
    ensures Told(roi, inputs, run, story, f, n + 1, id)
  {
    RunGoesOn(roi, inputs, run, n, id);
  }

  /** Every track the manager holds was told by the records alone. */
  lemma {:induction false} AlwaysTold(roi: Roi, inputs: seq<Input>, run: seq<Stages>, story: seq<Event>, n: nat,
                                      id: nat) returns (f: nat)
    requires Run(roi, inputs, run) && IsStory(inputs, run, id, story) && n <= |inputs| && id in run[n].manager
    ensures Told(roi, inputs, run, story, f, n, id)
    decreases n
  {
    if id in run[n - 1].manager {
      f := AlwaysTold(roi, inputs, run, story, n - 1, id);
      GoesOnTold(roi, inputs, run, story, f, n - 1, id);
    } else {
      f := n - 1;
      StartsTold(roi, inputs, run, story, f, id);
    }
  }

  /** A published track's visibility lies in (0, 1], and its loiter score is
      positive exactly when at least four observations are held, all close together. */
  ghost predicate Sane(s: Snapshot) {
    && 0.0 < Visibility(s) <= 1.0
    && (s.loiter > 0.0 <==>
          s.seen >= 4 && forall i, j :: 0 <= i < |s.history| && 0 <= j < |s.history| ==>
              Near(s.history[i], s.history[j]))
  }

  lemma LivesSane(id: nat, name: Name, stamp: nat, roi: Roi, events: seq<Event>)
    requires events != [] && events[0].Observe?
    ensures Sane(TrackLife.After(Fresh(id, name, stamp), roi, events))
  {
    CountersAndHistory(id, name, stamp, roi, events);
    VisibilityRange(id, name, stamp, roi, events);
    FirstObserved(events);
    LoiterIff(TrackLife.After(Fresh(id, name, stamp), roi, events).history);
  }

  lemma ToldSane(roi: Roi, inputs: seq<Input>, run: seq<Stages>, story: seq<Event>, f: nat, n: nat, id: nat)
    requires |inputs| < |run| && IsStory(inputs, run, id, story) && Told(roi, inputs, run, story, f, n, id)
    ensures Sane(run[n].manager[id])
  {
    var recs := RecordsAt(inputs, run, f);
    assert story[f..n][0] == EventAt(inputs, run, f, id);
    RetoldIsAfter(Started(recs, inputs[f].stamp, id), roi, story, f, n, story[f..n]);
    LivesSane(id, recs[IndexOf(recs, |recs|, id)].det.name, inputs[f].stamp, roi, story[f..n]);
  }

  /** Every track the manager ever publishes is what the frames' records since its
      first one tell of it, and is sane. */
  lemma PublishedTracks(roi: Roi, inputs: seq<Input>, run: seq<Stages>, n: nat, id: nat) returns (f: nat)
    requires Run(roi, inputs, run) && n <= |inputs| && id in run[n].manager
    ensures Told(roi, inputs, run, Story(inputs, run, id), f, n, id)
    ensures Sane(run[n].manager[id]) && run[n].manager[id].missed <= 30
  {
    f := AlwaysTold(roi, inputs, run, Story(inputs, run, id), n, id);
    ToldSane(roi, inputs, run, Story(inputs, run, id), f, n, id);
    AlwaysLinked(roi, inputs, run, n);
    assert Live(run[n].tracker.tracks)[id] in run[n].tracker.tracks;
  }
}
