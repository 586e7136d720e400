/** From detections to the language model: tracker, link, temporal manager, link
    and presence machine together. */
module EndToEnd {
  import Wire
  import opened Tracker
  import opened TrackStates
  import opened TrackManagers
  import opened Lockstep
  import opened Aggregate
  import opened Links
  import Summarizer

  /** The frame held a detection of the class, as its label reads after 15 bytes. */
  ghost predicate Detected(dets: seq<Det>, class_: Name) {
    exists d :: 0 <= d < |dets| && Wire.Cut(dets[d].name) == class_
  }

  /** Some live track of the class was seen this frame. */
  ghost predicate Fresh(m: Snapshots, class_: Name) {
    exists id :: id in m && m[id].missed == 0 && Wire.Cut(m[id].name) == class_
  }

  /** A published frame shows a drone that is not lost exactly when some live
      track of its class is not. */
  lemma ShowsIffFresh(frame: seq<Summary>, m: Snapshots, c: Summarizer.Settings, fl: Floats)
    requires Publishes(frame, m, fl)
    ensures Summarizer.Drones(c, frame) != [] <==> Fresh(m, c.droneClass)
  {
    if Fresh(m, c.droneClass) {
      var id :| id in m && m[id].missed == 0 && Wire.Cut(m[id].name) == c.droneClass;
      var x := SummaryOf(m[id], fl);
      assert x in frame && Summarizer.IsDrone(c, x);
      assert x in Summarizer.Drones(c, frame);
    }
    if Summarizer.Drones(c, frame) != [] {
      var x := Summarizer.Drones(c, frame)[0];
      assert x in Summarizer.Drones(c, frame);
      assert m[x.id].missed == 0;
    }
  }

  /** A detection's track is live, not lost, and of its class. */
  lemma DetectionShows(L: map<nat, Track>, frame: nat, outs: seq<Output>, L': map<nat, Track>, m: Snapshots, d: nat)
    requires TrackerFacts.Moved(L, frame, outs, L') && d < |outs|
    requires m.Keys == L'.Keys && forall id :: id in m ==> Matches(L'[id], m[id])
    ensures Fresh(m, Wire.Cut(outs[d].det.name))
  {
    var o := outs[d];
    assert o in outs;
    assert Matches(L'[o.id], m[o.id]);
    CutTwice(o.det.name);
  }

  /** A track that is not lost was detected this frame. */
  lemma FreshWasDetected(L: map<nat, Track>, frame: nat, outs: seq<Output>, L': map<nat, Track>, m: Snapshots, id: nat)
      returns (d: nat)
    requires TrackerFacts.Moved(L, frame, outs, L')
    requires m.Keys == L'.Keys && forall id :: id in m ==> Matches(L'[id], m[id])
    requires id in m && m[id].missed == 0
    ensures d < |outs| && Wire.Cut(m[id].name) == Wire.Cut(outs[d].det.name)
  {
    assert Matches(L'[id], m[id]);
    assert id in TrackerFacts.OutIds(outs);
    d :| 0 <= d < |outs| && outs[d].id == id;
    assert outs[d] in outs;
    CutTwice(outs[d].det.name);
  }

  lemma FreshIffReported(L: map<nat, Track>, frame: nat, dets: seq<Det>, outs: seq<Output>,
                         L': map<nat, Track>, m: Snapshots, class_: Name)
    requires TrackerFacts.Moved(L, frame, outs, L')
    requires m.Keys == L'.Keys && forall id :: id in m ==> Matches(L'[id], m[id])
    requires |outs| == |dets| && forall d :: 0 <= d < |dets| ==> outs[d].det == dets[d]
    ensures Fresh(m, class_) <==> Detected(dets, class_)
  {
    if Fresh(m, class_) {
      var id :| id in m && m[id].missed == 0 && Wire.Cut(m[id].name) == class_;
      var d := FreshWasDetected(L, frame, outs, L', m, id);
    }
    if Detected(dets, class_) {
      var d :| 0 <= d < |dets| && Wire.Cut(dets[d].name) == class_;
      DetectionShows(L, frame, outs, L', m, d);
    }
  }

  /** A published frame shows a drone that is not lost exactly when the detection
      frame behind it held one. */
  lemma PresentIffDetected(s: Stages, roi: Roi, i: Input, frame: seq<Summary>, c: Summarizer.Settings, fl: Floats)
    requires Linked(s.tracker, s.manager) && Publishes(frame, Advance(s, roi, i).manager, fl)
    ensures Summarizer.Drones(c, frame) != [] <==> Detected(i.dets, c.droneClass)
  {
    var (n, outs) := Update(s.tracker, i.frame, i.dets);
    var m := Advance(s, roi, i).manager;
    FrameKeepsLink(s.tracker, s.manager, roi, i.frame, i.stamp, i.dets);
    TrackerFacts.UpdateMoves(s.tracker, i.frame, i.dets);
    FreshIffReported(TrackerFacts.Live(s.tracker.tracks), i.frame, i.dets, outs, TrackerFacts.Live(n.tracks), m,
                     c.droneClass);
    ShowsIffFresh(frame, m, c, fl);
  }

  // ---- one frame through all three links ----

  lemma DetectedCut(raw: seq<Det>, dets: seq<Det>, class_: Name)
    requires |raw| == |dets| && forall d :: 0 <= d < |raw| ==> dets[d] == CutDet(raw[d])
    ensures Detected(dets, class_) <==> Detected(raw, class_)
  {
    if Detected(dets, class_) {
      var d :| 0 <= d < |dets| && Wire.Cut(dets[d].name) == class_;
      CutTwice(raw[d].name);
    }
    if Detected(raw, class_) {
      var d :| 0 <= d < |raw| && Wire.Cut(raw[d].name) == class_;
      CutTwice(raw[d].name);
      assert Wire.Cut(dets[d].name) == class_;
    }
  }

  /** While ids fit in 32 bits, the tracker's outputs fit on the wire. */
  lemma OutputsAlwaysFit(s: TrackerState, i: Input)
    requires TrackerFacts.Sound(s) && RawFits(i)
    requires Update(s, i.frame, i.dets).0.nextId <= 0x1_0000_0000
    ensures OutputsFit(i.frame, i.stamp, Update(s, i.frame, i.dets).1)
  {
    var (n, outs) := Update(s, i.frame, i.dets);
    TrackerFacts.UpdateMoves(s, i.frame, i.dets);
    forall d | 0 <= d < |outs|
      ensures OutputFits(outs[d])
    {
      assert TrackerFacts.Origin(s, outs[d], n.nextId);
      if outs[d].id in TrackerFacts.Live(s.tracks) {
        assert TrackerFacts.Live(s.tracks)[outs[d].id] in s.tracks;
      }
    }
  }

  lemma DetectionsReachTracker(raw: Input)
    requires RawFits(raw)
    ensures var i := TrackerInput(DetectionBytes(raw));
      && RawFits(i)
      && forall class_ :: Detected(i.dets, class_) <==> Detected(raw.dets, class_)
  {
    DetectionsArrive(raw, []);
    assert DetectionBytes(raw) + [] == DetectionBytes(raw);
    var i := TrackerInput(DetectionBytes(raw));
    forall class_
      ensures Detected(i.dets, class_) <==> Detected(raw.dets, class_)
    {
      DetectedCut(raw.dets, i.dets, class_);
    }
  }

  /** A frame of raw detections through tracker and manager, as bytes on both links. */
  function ThroughBytes(s: Stages, roi: Roi, raw: Input): (t: Stages)
    requires RawFits(raw)
  {
    var i := TrackerInput(DetectionBytes(raw));
    var (n, outs) := Update(s.tracker, i.frame, i.dets);
    var (recs, stamp) :=
      if OutputsFit(i.frame, i.stamp, outs) then ManagerInput(TrackBytes(i.frame, i.stamp, outs)) else ([], 0);
    Stages(n, FrameOf(s.manager, roi, recs, stamp))
  }

  /** The bytes change nothing: both stages move as on the detections the tracker reads. */
  lemma ThroughIsAdvance(s: Stages, roi: Roi, raw: Input)
    requires TrackerFacts.Sound(s.tracker) && RawFits(raw) && ThroughBytes(s, roi, raw).tracker.nextId <= 0x1_0000_0000
    ensures ThroughBytes(s, roi, raw) == Advance(s, roi, TrackerInput(DetectionBytes(raw)))
  {
    var i := TrackerInput(DetectionBytes(raw));
    DetectionsReachTracker(raw);
    OutputsAlwaysFit(s.tracker, i);
    var (n, outs) := Update(s.tracker, i.frame, i.dets);
    var bytes := TrackBytes(i.frame, i.stamp, outs);
    LinkRelays(i.frame, i.stamp, outs, []);
    assert bytes + [] == bytes;
  }

  /** What the summarizer sees of a frame of raw detections that went through all
      three links as bytes: a drone, exactly when the frame held one; and the two
      stages are still in lockstep. */
  lemma FrameThroughBytes(s: Stages, roi: Roi, raw: Input, snaps: seq<Snapshot>, c: Summarizer.Settings, fl: Floats)
    requires Linked(s.tracker, s.manager) && FloatsFit(fl)
    requires RawFits(raw)
    requires ThroughBytes(s, roi, raw).tracker.nextId <= 0x1_0000_0000
    requires IsView(snaps, ThroughBytes(s, roi, raw).manager) && SnapshotsFit(raw.frame, raw.stamp, snaps)
    ensures var t := ThroughBytes(s, roi, raw); Linked(t.tracker, t.manager)
    ensures Summarizer.Drones(c, SummarizerInput(SummaryBytes(raw.frame, raw.stamp, snaps, fl), fl)) != [] <==>
            Detected(raw.dets, c.droneClass)
  {
    var i := TrackerInput(DetectionBytes(raw));
    DetectionsReachTracker(raw);
    ThroughIsAdvance(s, roi, raw);
    FrameKeepsLink(s.tracker, s.manager, roi, i.frame, i.stamp, i.dets);
    var published := SummaryBytes(raw.frame, raw.stamp, snaps, fl);
    SummariesArrive(raw.frame, raw.stamp, snaps, Advance(s, roi, i).manager, fl, []);
    assert published + [] == published;
    PresentIffDetected(s, roi, i, SummarizerInput(published, fl), c, fl);
  }

  // ---- runs ----

  /** How many of the first k turns received a frame. */
  function FramesBefore(ticks: seq<Summarizer.Tick>, k: nat): nat
    requires k <= |ticks|
  {
    if k == 0 then 0 else FramesBefore(ticks, k - 1) + if ticks[k - 1].Got? then 1 else 0
  }

  /** The summarizer receives, one by one, the frames published for the inputs. */
  ghost predicate Feeds(run: seq<Stages>, ticks: seq<Summarizer.Tick>, fl: Floats) {
    forall k :: 0 <= k < |ticks| && ticks[k].Got? ==>
      FramesBefore(ticks, k) + 1 < |run| && Publishes(ticks[k].frame, run[FramesBefore(ticks, k) + 1].manager, fl)
  }

  /** Turn k received the frame of a detection frame that held the class. */
  ghost predicate DetectedAt(inputs: seq<Input>, ticks: seq<Summarizer.Tick>, class_: Name, k: int) {
    && 0 <= k < |ticks| && ticks[k].Got?
    && FramesBefore(ticks, k) < |inputs| && Detected(inputs[FramesBefore(ticks, k)].dets, class_)
  }

  /** Turn k received the frame of a detection frame without the class. */
  ghost predicate EmptyAt(inputs: seq<Input>, ticks: seq<Summarizer.Tick>, class_: Name, k: int) {
    0 <= k < |ticks| && ticks[k].Got? && !DetectedAt(inputs, ticks, class_, k)
  }

  /** Over any run, the summarizer sees a drone in a turn exactly when the raw
      detections of the frame it received held one. */
  lemma SeesWhatWasDetected(roi: Roi, inputs: seq<Input>, run: seq<Stages>, ticks: seq<Summarizer.Tick>,
                            c: Summarizer.Settings, fl: Floats, k: int)
    requires Run(roi, inputs, run) && Feeds(run, ticks, fl)
    ensures Summarizer.DroneAt(c, ticks, k) <==> DetectedAt(inputs, ticks, c.droneClass, k)
    ensures Summarizer.ClearAt(c, ticks, k) <==> EmptyAt(inputs, ticks, c.droneClass, k)
  {
    if 0 <= k < |ticks| && ticks[k].Got? {
      var i := FramesBefore(ticks, k);
      AlwaysLinked(roi, inputs, run, i);
      assert StepAt(roi, inputs, run, i);
      PresentIffDetected(run[i], roi, inputs[i], ticks[k].frame, c, fl);
    }
  }

  /** After a turn that received a frame, the machine believes a drone is present
      exactly when that frame's raw detections held one. */
  lemma PresenceIsTrue(roi: Roi, inputs: seq<Input>, run: seq<Stages>, ticks: seq<Summarizer.Tick>,
                       c: Summarizer.Settings, fl: Floats, k: nat)
    requires Run(roi, inputs, run) && Feeds(run, ticks, fl) && k < |ticks| && ticks[k].Got?
    ensures Summarizer.After(c, ticks, k + 1).fsm.present <==> DetectedAt(inputs, ticks, c.droneClass, k)
  {
    SeesWhatWasDetected(roi, inputs, run, ticks, c, fl, k);
  }

  /** Turn n is due, told from raw detections: turn o was the first since the last
      run to hold the class, e was the last one before d to hold it, nothing from
      d to n held it, and the cooldown has passed since d. */
  ghost predicate DueFromDetections(inputs: seq<Input>, ticks: seq<Summarizer.Tick>, c: Summarizer.Settings,
                                    base: nat, n: nat, o: int, e: int, d: int)
    requires n < |ticks|
  {
    && base <= o <= e < d < n
    && DetectedAt(inputs, ticks, c.droneClass, o) && NotDetected(inputs, ticks, c.droneClass, base, o)
    && DetectedAt(inputs, ticks, c.droneClass, e) && NotDetected(inputs, ticks, c.droneClass, e + 1, n + 1)
    && EmptyAt(inputs, ticks, c.droneClass, d) && NotEmpty(inputs, ticks, c.droneClass, e, d)
    && Elapsed(ticks[n].now, ticks[d].now) >= c.cooldown
  }

  ghost predicate NotDetected(inputs: seq<Input>, ticks: seq<Summarizer.Tick>, class_: Name, i: int, j: int) {
    forall k :: i <= k < j ==> !DetectedAt(inputs, ticks, class_, k)
  }

  ghost predicate NotEmpty(inputs: seq<Input>, ticks: seq<Summarizer.Tick>, class_: Name, i: int, j: int) {
    forall k :: i <= k < j ==> !EmptyAt(inputs, ticks, class_, k)
  }

  lemma SeesNothing(roi: Roi, inputs: seq<Input>, run: seq<Stages>, ticks: seq<Summarizer.Tick>,
                    c: Summarizer.Settings, fl: Floats, i: int, j: int)
    requires Run(roi, inputs, run) && Feeds(run, ticks, fl)
    ensures Summarizer.NoDroneIn(c, ticks, i, j) <==> NotDetected(inputs, ticks, c.droneClass, i, j)
    ensures Summarizer.NoClearIn(c, ticks, i, j) <==> NotEmpty(inputs, ticks, c.droneClass, i, j)
  {
    forall k: int
      ensures Summarizer.DroneAt(c, ticks, k) <==> DetectedAt(inputs, ticks, c.droneClass, k)
      ensures Summarizer.ClearAt(c, ticks, k) <==> EmptyAt(inputs, ticks, c.droneClass, k)
    {
      SeesWhatWasDetected(roi, inputs, run, ticks, c, fl, k);
    }
  }

  lemma DueMeans(roi: Roi, inputs: seq<Input>, run: seq<Stages>, ticks: seq<Summarizer.Tick>,
                 c: Summarizer.Settings, fl: Floats, base: nat, n: nat, o: int, d: int) returns (e: int)
    requires Run(roi, inputs, run) && Feeds(run, ticks, fl) && n < |ticks| && Summarizer.Due(c, ticks, base, n, o, d)
    ensures DueFromDetections(inputs, ticks, c, base, n, o, e, d)
  {
    e :| Summarizer.Here(c, ticks, o, d, e);
    SeesWhatWasDetected(roi, inputs, run, ticks, c, fl, o);
    SeesWhatWasDetected(roi, inputs, run, ticks, c, fl, e);
    SeesWhatWasDetected(roi, inputs, run, ticks, c, fl, d);
    SeesNothing(roi, inputs, run, ticks, c, fl, base, o);
    SeesNothing(roi, inputs, run, ticks, c, fl, e + 1, d);
    SeesNothing(roi, inputs, run, ticks, c, fl, d, n + 1);
    SeesNothing(roi, inputs, run, ticks, c, fl, e, d);
  }

  lemma DueIfDetections(roi: Roi, inputs: seq<Input>, run: seq<Stages>, ticks: seq<Summarizer.Tick>,
                        c: Summarizer.Settings, fl: Floats, base: nat, n: nat, o: int, e: int, d: int)
    requires Run(roi, inputs, run) && Feeds(run, ticks, fl) && n < |ticks|
    requires DueFromDetections(inputs, ticks, c, base, n, o, e, d)
    ensures Summarizer.Due(c, ticks, base, n, o, d)
  {
    SeesWhatWasDetected(roi, inputs, run, ticks, c, fl, o);
    SeesWhatWasDetected(roi, inputs, run, ticks, c, fl, e);
    SeesWhatWasDetected(roi, inputs, run, ticks, c, fl, d);
    SeesNothing(roi, inputs, run, ticks, c, fl, base, o);
    SeesNothing(roi, inputs, run, ticks, c, fl, e + 1, n + 1);
    SeesNothing(roi, inputs, run, ticks, c, fl, e, d);
    assert Summarizer.Here(c, ticks, o, d, e);
    assert Summarizer.Left(c, ticks, o, n + 1, d);
  }

  lemma RunsOnlyWhenDue(roi: Roi, inputs: seq<Input>, run: seq<Stages>, ticks: seq<Summarizer.Tick>,
                        c: Summarizer.Settings, fl: Floats, n: nat) returns (o: int, e: int, d: int)
    requires Run(roi, inputs, run) && Feeds(run, ticks, fl) && n < |ticks| && Summarizer.Fired(c, ticks, n).Some?
    ensures DueFromDetections(inputs, ticks, c, Summarizer.After(c, ticks, n).base, n, o, e, d)
  {
    o, d := Summarizer.FiresDue(c, ticks, n);
    e := DueMeans(roi, inputs, run, ticks, c, fl, Summarizer.After(c, ticks, n).base, n, o, d);
  }

  lemma RunsIfDue(roi: Roi, inputs: seq<Input>, run: seq<Stages>, ticks: seq<Summarizer.Tick>,
                  c: Summarizer.Settings, fl: Floats, n: nat, o: int, e: int, d: int)
    requires Run(roi, inputs, run) && Feeds(run, ticks, fl) && n < |ticks|
    requires DueFromDetections(inputs, ticks, c, Summarizer.After(c, ticks, n).base, n, o, e, d)
    ensures Summarizer.Fired(c, ticks, n).Some?
  {
    DueIfDetections(roi, inputs, run, ticks, c, fl, Summarizer.After(c, ticks, n).base, n, o, e, d);
    Summarizer.DueFires(c, ticks, n, o, d);
  }

  /** Turn n is due for some episode since turn `base`. */
  ghost predicate EpisodeOver(inputs: seq<Input>, ticks: seq<Summarizer.Tick>, c: Summarizer.Settings, base: nat,
                              n: nat)
    requires n < |ticks|
  {
    exists o, e, d :: DueFromDetections(inputs, ticks, c, base, n, o, e, d)
  }

  /** End to end: the language model runs in turn n exactly when an episode of raw
      detections of the class has ended, for at least the cooldown. */
  lemma ModelRunsOnDetections(roi: Roi, inputs: seq<Input>, run: seq<Stages>, ticks: seq<Summarizer.Tick>,
                              c: Summarizer.Settings, fl: Floats, n: nat)
    requires Run(roi, inputs, run) && Feeds(run, ticks, fl) && n < |ticks|
    ensures Summarizer.Fired(c, ticks, n).Some? <==>
            EpisodeOver(inputs, ticks, c, Summarizer.After(c, ticks, n).base, n)
  {
    var base := Summarizer.After(c, ticks, n).base;
    if Summarizer.Fired(c, ticks, n).Some? {
      var o, e, d := RunsOnlyWhenDue(roi, inputs, run, ticks, c, fl, n);
      assert DueFromDetections(inputs, ticks, c, base, n, o, e, d);
    }
    if EpisodeOver(inputs, ticks, c, base, n) {
      var o, e, d :| DueFromDetections(inputs, ticks, c, base, n, o, e, d);
      RunsIfDue(roi, inputs, run, ticks, c, fl, n, o, e, d);
    }
  }

  // ---- the same, with bytes on every link ----

  /** run[i] is the state of the two stages after the first i frames of raw
      detections went through the first two links as bytes. */
  ghost predicate RunOfBytes(roi: Roi, raws: seq<Input>, run: seq<Stages>) {
    && |run| == |raws| + 1 && run[0] == START && AllRawFit(raws)
    && forall i: nat :: i < |raws| ==> ByteStep(roi, raws[i], run[i], run[i + 1])
  }

  predicate AllRawFit(raws: seq<Input>) {
    forall i :: 0 <= i < |raws| ==> RawFits(raws[i])
  }

  ghost predicate ByteStep(roi: Roi, raw: Input, s: Stages, t: Stages)
    requires RawFits(raw)
  {
    t == ThroughBytes(s, roi, raw) && t.tracker.nextId <= 0x1_0000_0000
  }

  /** The summarizer decodes, one by one, the frames published for the inputs. */
  ghost predicate FeedsBytes(raws: seq<Input>, run: seq<Stages>, ticks: seq<Summarizer.Tick>,
                             views: seq<seq<Snapshot>>, fl: Floats)
    requires FloatsFit(fl) && |run| == |raws| + 1
  {
    |views| == |ticks| &&
    forall k :: 0 <= k < |ticks| && ticks[k].Got? ==>
      && FramesBefore(ticks, k) < |raws|
      && Decoded(raws[FramesBefore(ticks, k)], views[k], run[FramesBefore(ticks, k) + 1].manager, fl, ticks[k].frame)
  }

  /** `frame` is what the summarizer decodes from the bytes of a view of the manager. */
  ghost predicate Decoded(raw: Input, view: seq<Snapshot>, m: Snapshots, fl: Floats, frame: seq<Summary>)
    requires FloatsFit(fl)
  {
    && IsView(view, m) && SnapshotsFit(raw.frame, raw.stamp, view)
    && frame == SummarizerInput(SummaryBytes(raw.frame, raw.stamp, view, fl), fl)
  }

  /** What the tracker reads from the first link. */
  function ReadByTracker(raws: seq<Input>): seq<Input>
    requires AllRawFit(raws)
  {
    seq(|raws|, i requires 0 <= i < |raws| && RawFits(raws[i]) => TrackerInput(DetectionBytes(raws[i])))
  }

  lemma {:induction false} BytesLinked(roi: Roi, raws: seq<Input>, run: seq<Stages>, n: nat)
    requires RunOfBytes(roi, raws, run) && n <= |raws|
    ensures Linked(run[n].tracker, run[n].manager)
  {
    if n == 0 {
      StartLinked();
    } else {
      BytesLinked(roi, raws, run, n - 1);
      assert ByteStep(roi, raws[n - 1], run[n - 1], run[n - 1 + 1]);
      var s, i := run[n - 1], TrackerInput(DetectionBytes(raws[n - 1]));
      ThroughIsAdvance(s, roi, raws[n - 1]);
      FrameKeepsLink(s.tracker, s.manager, roi, i.frame, i.stamp, i.dets);
    }
  }

  /** A run over bytes is a run on what the tracker reads. */
  lemma BytesRun(roi: Roi, raws: seq<Input>, run: seq<Stages>)
    requires RunOfBytes(roi, raws, run)
    ensures Run(roi, ReadByTracker(raws), run)
  {
    var inputs := ReadByTracker(raws);
    forall i: nat | i < |raws|
      ensures StepAt(roi, inputs, run, i)
    {
      BytesLinked(roi, raws, run, i);
      assert ByteStep(roi, raws[i], run[i], run[i + 1]);
      ThroughIsAdvance(run[i], roi, raws[i]);
    }
  }

  lemma BytesFeed(roi: Roi, raws: seq<Input>, run: seq<Stages>, ticks: seq<Summarizer.Tick>,
                  views: seq<seq<Snapshot>>, fl: Floats)
    requires RunOfBytes(roi, raws, run) && FloatsFit(fl) && FeedsBytes(raws, run, ticks, views, fl)
    ensures Feeds(run, ticks, fl)
  {
    forall k | 0 <= k < |ticks| && ticks[k].Got?
      ensures FramesBefore(ticks, k) + 1 < |run|
      ensures Publishes(ticks[k].frame, run[FramesBefore(ticks, k) + 1].manager, fl)
    {
      var i := FramesBefore(ticks, k);
      DecodedPublishes(raws[i], views[k], run[i + 1].manager, fl, ticks[k].frame);
    }
  }

  lemma DecodedPublishes(raw: Input, view: seq<Snapshot>, m: Snapshots, fl: Floats, frame: seq<Summary>)
    requires FloatsFit(fl) && Decoded(raw, view, m, fl, frame)
    ensures Publishes(frame, m, fl)
  {
    var bytes := SummaryBytes(raw.frame, raw.stamp, view, fl);
    SummariesArrive(raw.frame, raw.stamp, view, m, fl, []);
    assert bytes + [] == bytes;
  }

  /** Frame by frame, the two lists of detections hold the class alike. */
  ghost predicate Alike(a: seq<Input>, b: seq<Input>, class_: Name) {
    |a| == |b| && forall i :: 0 <= i < |a| ==> (Detected(a[i].dets, class_) <==> Detected(b[i].dets, class_))
  }

  lemma ReadAlike(raws: seq<Input>, class_: Name)
    requires AllRawFit(raws)
    ensures Alike(ReadByTracker(raws), raws, class_)
  {
    forall i | 0 <= i < |raws|
      ensures Detected(ReadByTracker(raws)[i].dets, class_) <==> Detected(raws[i].dets, class_)
    {
      DetectionsReachTracker(raws[i]);
    }
  }

  lemma SameStretch(a: seq<Input>, b: seq<Input>, ticks: seq<Summarizer.Tick>, class_: Name, i: int, j: int)
    requires Alike(a, b, class_)
    ensures NotDetected(a, ticks, class_, i, j) <==> NotDetected(b, ticks, class_, i, j)
    ensures NotEmpty(a, ticks, class_, i, j) <==> NotEmpty(b, ticks, class_, i, j)
  {
    assert forall k :: DetectedAt(a, ticks, class_, k) <==> DetectedAt(b, ticks, class_, k);
    assert forall k :: EmptyAt(a, ticks, class_, k) <==> EmptyAt(b, ticks, class_, k);
  }

  lemma SameDue(a: seq<Input>, b: seq<Input>, ticks: seq<Summarizer.Tick>, c: Summarizer.Settings,
                base: nat, n: nat, o: int, e: int, d: int)
    requires n < |ticks| && Alike(a, b, c.droneClass)
    ensures DueFromDetections(a, ticks, c, base, n, o, e, d) <==> DueFromDetections(b, ticks, c, base, n, o, e, d)
  {
    SameStretch(a, b, ticks, c.droneClass, base, o);
    SameStretch(a, b, ticks, c.droneClass, e + 1, n + 1);
    SameStretch(a, b, ticks, c.droneClass, e, d);
  }

  lemma SameEpisode(a: seq<Input>, b: seq<Input>, ticks: seq<Summarizer.Tick>, c: Summarizer.Settings, base: nat,
                    n: nat)
    requires n < |ticks| && Alike(a, b, c.droneClass)
    ensures EpisodeOver(a, ticks, c, base, n) <==> EpisodeOver(b, ticks, c, base, n)
  {
    forall o, e, d
      ensures DueFromDetections(a, ticks, c, base, n, o, e, d) <==> DueFromDetections(b, ticks, c, base, n, o, e, d)
    {
      SameDue(a, b, ticks, c, base, n, o, e, d);
    }
  }

  /** End to end over bytes: with every link carrying its frames as bytes, the
      language model runs in turn n exactly when an episode of raw detections of
      the class has ended, for at least the cooldown. */
  lemma ModelRunsOnBytes(roi: Roi, raws: seq<Input>, run: seq<Stages>, ticks: seq<Summarizer.Tick>,
                         views: seq<seq<Snapshot>>, c: Summarizer.Settings, fl: Floats, n: nat)
    requires RunOfBytes(roi, raws, run) && FloatsFit(fl) && FeedsBytes(raws, run, ticks, views, fl) && n < |ticks|
    ensures Summarizer.Fired(c, ticks, n).Some? <==>
            EpisodeOver(raws, ticks, c, Summarizer.After(c, ticks, n).base, n)
  {
    var inputs, base := ReadByTracker(raws), Summarizer.After(c, ticks, n).base;
    BytesRun(roi, raws, run);
    BytesFeed(roi, raws, run, ticks, views, fl);
    ModelRunsOnDetections(roi, inputs, run, ticks, c, fl, n);
    ReadAlike(raws, c.droneClass);
    SameEpisode(inputs, raws, ticks, c, base, n);
  }
}
