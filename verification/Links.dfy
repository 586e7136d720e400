/** The three links between the processes, value by value and byte by byte:
    pipeline to tracker, tracker to temporal service, temporal service to
    summarizer. */
module Links {
  import Wire
  import opened Tracker
  import opened TrackStates
  import opened TrackManagers
  import opened Aggregate
  import opened Lockstep

  predicate Int32(x: int) {
    -0x8000_0000 <= x < 0x8000_0000
  }

  predicate BoxFits(b: Box) {
    Int32(b.left) && Int32(b.top) && Int32(b.right) && Int32(b.bottom)
  }

  /** A box's four fields, in wire order. */
  function BoxFields(b: Box): (f: seq<nat>)
    requires BoxFits(b)
    ensures |f| == 4 && forall k :: 0 <= k < 4 ==> f[k] < 0x1_0000_0000
  {
    [Wire.ToUnsigned32(b.left), Wire.ToUnsigned32(b.top), Wire.ToUnsigned32(b.right), Wire.ToUnsigned32(b.bottom)]
  }

  function BoxOf(f: seq<nat>): Box
    requires |f| == 4
  {
    Box(Wire.ToSigned32(f[0]), Wire.ToSigned32(f[1]), Wire.ToSigned32(f[2]), Wire.ToSigned32(f[3]))
  }

  lemma SignedSurvives(x: int)
    requires Int32(x)
    ensures Wire.ToUnsigned32(x) < 0x1_0000_0000 && Wire.ToSigned32(Wire.ToUnsigned32(x)) == x
  {
  }

  lemma BoxSurvives(b: Box)
    requires BoxFits(b)
    ensures BoxOf(BoxFields(b)) == b
  {
    SignedSurvives(b.left);
    SignedSurvives(b.top);
    SignedSurvives(b.right);
    SignedSurvives(b.bottom);
  }

  // ---- frames of any kind ----

  lemma {:induction false} CutRecsAt(recs: seq<Wire.Rec>)
    ensures forall k :: 0 <= k < |recs| ==> Wire.CutRecs(recs)[k] == Wire.CutRec(recs[k])
  {
    if recs != [] {
      CutRecsAt(recs[1..]);
    }
  }

  /** The first frame a reader gets from a stream, if any. */
  function FirstFrame(layout: Wire.Layout, reader: Wire.Reader, bs: seq<Wire.Byte>): Wire.Frame {
    var got := Wire.Deliver(layout, reader, bs);
    if got == [] then Wire.Frame(0, 0, []) else got[0]
  }

  /** A frame's header and records arrive, with only the names cut. */
  lemma FrameArrives(layout: Wire.Layout, reader: Wire.Reader, f: Wire.Frame, rest: seq<Wire.Byte>)
    requires Wire.FrameFits(layout, f)
    ensures Wire.Deliver(layout, reader, Wire.EncodeFrame(layout, f) + rest) != []
    ensures var g := FirstFrame(layout, reader, Wire.EncodeFrame(layout, f) + rest);
      && g.id == f.id && g.timestamp == f.timestamp && |g.recs| == |f.recs|
      && forall k :: 0 <= k < |f.recs| ==> g.recs[k] == Wire.CutRec(f.recs[k])
  {
    Wire.FrameRoundTrip(layout, reader, f, rest);
    CutRecsAt(f.recs);
  }

  lemma {:induction false} RunIs(width: nat, n: nat)
    ensures |Wire.Run(width, n)| == n && forall k :: 0 <= k < n ==> Wire.Run(width, n)[k] == width
  {
    if n > 0 {
      RunIs(width, n - 1);
    }
  }

  lemma RunFits(width: nat, fields: seq<nat>)
    requires forall k :: 0 <= k < |fields| ==> fields[k] < Wire.Pow256(width)
    ensures Wire.FieldsFit(Wire.Run(width, |fields|), fields)
  {
    RunIs(width, |fields|);
  }

  lemma BothFit(a: Wire.Layout, b: Wire.Layout, x: seq<nat>, y: seq<nat>)
    requires Wire.FieldsFit(a, x) && Wire.FieldsFit(b, y)
    ensures Wire.FieldsFit(a + b, x + y)
  {
  }

  // ---- pipeline to tracker ----

  predicate DetFits(d: Det) {
    Wire.CName(d.name) && d.conf < 0x1_0000_0000 && BoxFits(d.box)
  }

  function DetFields(d: Det): (f: seq<nat>)
    requires DetFits(d)
    ensures |f| == 5 && forall k :: 0 <= k < 5 ==> f[k] < 0x1_0000_0000
  {
    [d.conf] + BoxFields(d.box)
  }

  function DetRec(d: Det): Wire.Rec
    requires DetFits(d)
  {
    Wire.Rec(d.name, DetFields(d))
  }

  function DetOf(r: Wire.Rec): Det
    requires |r.fields| == 5
  {
    Det(r.name, r.fields[0], BoxOf(r.fields[1..]))
  }

  function CutDet(d: Det): Det {
    d.(name := Wire.Cut(d.name))
  }

  lemma DetSurvives(d: Det)
    requires DetFits(d)
    ensures Wire.RecFits(Wire.DETECTION, DetRec(d)) && DetOf(Wire.CutRec(DetRec(d))) == CutDet(d)
  {
    Wire.Widths();
    RunFits(4, DetFields(d));
    BoxSurvives(d.box);
    assert DetFields(d)[1..] == BoxFields(d.box);
  }

  function DetRecs(dets: seq<Det>): seq<Wire.Rec>
    requires forall k :: 0 <= k < |dets| ==> DetFits(dets[k])
  {
    seq(|dets|, k requires 0 <= k < |dets| && DetFits(dets[k]) => DetRec(dets[k]))
  }

  function DetsOf(recs: seq<Wire.Rec>): seq<Det>
    requires forall k :: 0 <= k < |recs| ==> |recs[k].fields| == 5
  {
    seq(|recs|, k requires 0 <= k < |recs| && |recs[k].fields| == 5 => DetOf(recs[k]))
  }

  /** A header the two uint64 fields and the uint16 count can hold. */
  predicate HeaderFits(frame: nat, stamp: nat, count: nat) {
    frame < Wire.Pow256(8) && stamp < Wire.Pow256(8) && count < 65536
  }

  /** A detection frame that sendFrame can announce and send without loss. */
  predicate RawFits(i: Input) {
    HeaderFits(i.frame, i.stamp, |i.dets|) && forall k :: 0 <= k < |i.dets| ==> DetFits(i.dets[k])
  }

  /** What the tracker makes of the bytes of a detection frame. */
  function TrackerInput(bs: seq<Wire.Byte>): Input {
    var g := FirstFrame(Wire.DETECTION, Wire.TrackerReader, bs);
    Input(g.id, g.timestamp,
          if forall k :: 0 <= k < |g.recs| ==> |g.recs[k].fields| == 5 then DetsOf(g.recs) else [])
  }

  /** The bytes sendFrame writes for a detection frame. */
  function DetectionBytes(i: Input): seq<Wire.Byte>
    requires RawFits(i)
  {
    DetectionsFit(i);
    Wire.EncodeFrame(Wire.DETECTION, Wire.Frame(i.frame, i.stamp, DetRecs(i.dets)))
  }

  lemma DetectionsFit(i: Input)
    requires RawFits(i)
    ensures Wire.FrameFits(Wire.DETECTION, Wire.Frame(i.frame, i.stamp, DetRecs(i.dets)))
  {
    Wire.Widths();
    Wire.RecordSizes();
    forall k | 0 <= k < |i.dets|
      ensures Wire.RecFits(Wire.DETECTION, DetRec(i.dets[k]))
    {
      DetSurvives(i.dets[k]);
    }
  }

  /** The tracker works on the detections sent, names cut to 15 bytes. */
  lemma DetectionsArrive(i: Input, rest: seq<Wire.Byte>)
    requires RawFits(i)
    ensures var t := TrackerInput(DetectionBytes(i) + rest);
      && t.frame == i.frame && t.stamp == i.stamp && |t.dets| == |i.dets|
      && forall k :: 0 <= k < |i.dets| ==> t.dets[k] == CutDet(i.dets[k])
  {
    DetectionsFit(i);
    FrameArrives(Wire.DETECTION, Wire.TrackerReader, Wire.Frame(i.frame, i.stamp, DetRecs(i.dets)), rest);
    forall k | 0 <= k < |i.dets|
      ensures DetOf(Wire.CutRec(DetRec(i.dets[k]))) == CutDet(i.dets[k])
    {
      DetSurvives(i.dets[k]);
    }
  }

  // ---- tracker to temporal service ----

  predicate OutputFits(o: Output) {
    DetFits(o.det) && o.id < 0x1_0000_0000
  }

  function OutputRec(o: Output): Wire.Rec
    requires OutputFits(o)
  {
    Wire.Rec(o.det.name, DetFields(o.det) + [o.id])
  }

  function OutputOf(r: Wire.Rec): Output
    requires |r.fields| == 6
  {
    Output(DetOf(Wire.Rec(r.name, r.fields[..5])), r.fields[5])
  }

  lemma OutputSurvives(o: Output)
    requires OutputFits(o)
    ensures Wire.RecFits(Wire.TRACK, OutputRec(o))
    ensures OutputOf(Wire.CutRec(OutputRec(o))) == o.(det := CutDet(o.det))
  {
    Wire.Widths();
    var f := DetFields(o.det) + [o.id];
    RunFits(4, f);
    DetSurvives(o.det);
    assert f[..5] == DetFields(o.det);
  }

  function OutputRecs(outs: seq<Output>): seq<Wire.Rec>
    requires forall k :: 0 <= k < |outs| ==> OutputFits(outs[k])
  {
    seq(|outs|, k requires 0 <= k < |outs| && OutputFits(outs[k]) => OutputRec(outs[k]))
  }

  function OutputsOf(recs: seq<Wire.Rec>): seq<Output>
    requires forall k :: 0 <= k < |recs| ==> |recs[k].fields| == 6
  {
    seq(|recs|, k requires 0 <= k < |recs| && |recs[k].fields| == 6 => OutputOf(recs[k]))
  }

  predicate OutputsFit(frame: nat, stamp: nat, outs: seq<Output>) {
    HeaderFits(frame, stamp, |outs|) && forall k :: 0 <= k < |outs| ==> OutputFits(outs[k])
  }

  lemma OutputFrameFits(frame: nat, stamp: nat, outs: seq<Output>)
    requires OutputsFit(frame, stamp, outs)
    ensures Wire.FrameFits(Wire.TRACK, Wire.Frame(frame, stamp, OutputRecs(outs)))
  {
    Wire.Widths();
    Wire.RecordSizes();
    forall k | 0 <= k < |outs|
      ensures Wire.RecFits(Wire.TRACK, OutputRec(outs[k]))
    {
      OutputSurvives(outs[k]);
    }
  }

  /** The bytes send_tracks writes. */
  function TrackBytes(frame: nat, stamp: nat, outs: seq<Output>): seq<Wire.Byte>
    requires OutputsFit(frame, stamp, outs)
  {
    OutputFrameFits(frame, stamp, outs);
    Wire.EncodeFrame(Wire.TRACK, Wire.Frame(frame, stamp, OutputRecs(outs)))
  }

  /** The records the temporal service reads from the bytes of a track frame, and their timestamp. */
  function ManagerInput(bs: seq<Wire.Byte>): (seq<Output>, nat) {
    var g := FirstFrame(Wire.TRACK, Wire.TemporalReader, bs);
    (if forall k :: 0 <= k < |g.recs| ==> |g.recs[k].fields| == 6 then OutputsOf(g.recs) else [], g.timestamp)
  }

  lemma {:induction false} OutputsSurvive(recs: seq<Wire.Rec>, outs: seq<Output>)
    requires |recs| == |outs| && forall k :: 0 <= k < |outs| ==> OutputFits(outs[k])
    requires forall k :: 0 <= k < |outs| ==> recs[k] == Wire.CutRec(OutputRec(outs[k]))
    ensures forall k :: 0 <= k < |recs| ==> |recs[k].fields| == 6
    ensures OutputsOf(recs) == Relayed(outs)
  {
    forall k | 0 <= k < |outs|
      ensures OutputOf(recs[k]) == Relayed(outs)[k]
    {
      OutputSurvives(outs[k]);
    }
  }

  /** The bytes of a frame of outputs reach the manager as the relayed outputs,
      whatever follows them on the stream. */
  lemma LinkRelays(frame: nat, stamp: nat, outs: seq<Output>, rest: seq<Wire.Byte>)
    requires OutputsFit(frame, stamp, outs)
    ensures ManagerInput(TrackBytes(frame, stamp, outs) + rest) == (Relayed(outs), stamp)
  {
    OutputFrameFits(frame, stamp, outs);
    FrameArrives(Wire.TRACK, Wire.TemporalReader, Wire.Frame(frame, stamp, OutputRecs(outs)), rest);
    OutputsSurvive(FirstFrame(Wire.TRACK, Wire.TemporalReader, TrackBytes(frame, stamp, outs) + rest).recs, outs);
  }

  // ---- temporal service to summarizer ----

  /** Floats on the wire: how a real becomes 32 bits and is read back, and the
      features of a track that need a square root or an arc tangent. */
  datatype Floats = Floats(bits: real -> nat, value: nat -> real,
                           speed: Snapshot -> real, heading: Snapshot -> real, accel: Snapshot -> real)

  ghost predicate FloatsFit(fl: Floats) {
    forall x :: fl.bits(x) < 0x1_0000_0000
  }

  /** What the summarizer reads for a track. */
  function SummaryOf(s: Snapshot, fl: Floats): Summary {
    Summary(Wire.Cut(s.name), s.id, s.seen, s.firstSeen, s.lastSeen, DurationMs(s), s.last.cx, s.last.cy,
            fl.value(fl.bits(fl.speed(s))), fl.value(fl.bits(s.loiter)), s.inRoi, s.entered, s.exited, StatusOf(s))
  }

  predicate SnapshotFits(s: Snapshot) {
    && Wire.CName(s.name) && s.id < 0x1_0000_0000 && s.seen < 0x1_0000_0000
    && s.firstSeen < Wire.Pow256(8) && s.lastSeen < Wire.Pow256(8)
    && Int32(s.last.cx) && Int32(s.last.cy) && BoxFits(s.last.box)
  }

  function Flag(b: bool): nat {
    if b then 1 else 0
  }

  function StatusByte(s: Status): nat {
    match s
    case Tentative => 0
    case Active => 1
    case Lost => 2
  }

  function StatusFrom(n: nat): Status {
    if n == 2 then Lost else if n == 0 then Tentative else Active
  }

  /** duration to loiter_score: fourteen 32-bit fields. */
  function Measures(s: Snapshot, fl: Floats): (f: seq<nat>)
    requires SnapshotFits(s)
    ensures |f| == 14
  {
    [DurationMs(s), fl.bits(Visibility(s)), Wire.ToUnsigned32(s.last.cx), Wire.ToUnsigned32(s.last.cy)]
    + BoxFields(s.last.box)
    + [fl.bits(s.vx), fl.bits(s.vy), fl.bits(fl.speed(s)), fl.bits(fl.heading(s)), fl.bits(fl.accel(s)),
       fl.bits(s.loiter)]
  }

  /** fill_summary. */
  function SummaryRec(s: Snapshot, fl: Floats): (r: Wire.Rec)
    requires SnapshotFits(s)
    ensures |r.fields| == 23
  {
    Wire.Rec(s.name,
      [s.id, s.seen] + [s.firstSeen, s.lastSeen] + Measures(s, fl)
      + [Flag(s.inRoi), Flag(s.entered), Flag(s.exited), StatusByte(StatusOf(s))] + [0])
  }

  /** A record as update_aggregate and the presence test read it. */
  function SummaryFrom(r: Wire.Rec, fl: Floats): Summary
    requires |r.fields| == 23
  {
    var f := r.fields;
    Summary(r.name, f[0], f[1], f[2], f[3], f[4], Wire.ToSigned32(f[6]), Wire.ToSigned32(f[7]),
            fl.value(f[14]), fl.value(f[17]), f[18] != 0, f[19] != 0, f[20] != 0, StatusFrom(f[21]))
  }

  lemma MeasuresFit(s: Snapshot, fl: Floats)
    requires SnapshotFits(s) && FloatsFit(fl)
    ensures Wire.FieldsFit(Wire.Run(4, 14), Measures(s, fl))
  {
    Wire.Widths();
    SignedSurvives(s.last.cx);
    SignedSurvives(s.last.cy);
    BitsFit(fl, Visibility(s));
    BitsFit(fl, s.vx);
    BitsFit(fl, s.vy);
    BitsFit(fl, fl.speed(s));
    BitsFit(fl, fl.heading(s));
    BitsFit(fl, fl.accel(s));
    BitsFit(fl, s.loiter);
    RunFits(4, Measures(s, fl));
  }

  lemma BitsFit(fl: Floats, x: real)
    requires FloatsFit(fl)
    ensures fl.bits(x) < 0x1_0000_0000
  {
  }

  lemma FlagsFit(flags: seq<nat>)
    requires |flags| == 4 && forall k :: 0 <= k < 4 ==> flags[k] <= 2
    ensures Wire.FieldsFit(Wire.Run(1, 4), flags)
  {
    assert Wire.Pow256(1) == 256 * Wire.Pow256(0) == 256;
    RunFits(1, flags);
  }

  lemma SummaryFits(s: Snapshot, fl: Floats)
    requires SnapshotFits(s) && FloatsFit(fl)
    ensures Wire.RecFits(Wire.SUMMARY, SummaryRec(s, fl))
  {
    Wire.Widths();
    var ids, stamps := [s.id, s.seen], [s.firstSeen, s.lastSeen];
    var flags, reserved := [Flag(s.inRoi), Flag(s.entered), Flag(s.exited), StatusByte(StatusOf(s))], [0];
    RunFits(4, ids);
    RunFits(8, stamps);
    MeasuresFit(s, fl);
    FlagsFit(flags);
    RunFits(4, reserved);
    BothFit(Wire.Run(4, 2), Wire.Run(8, 2), ids, stamps);
    BothFit(Wire.Run(4, 2) + Wire.Run(8, 2), Wire.Run(4, 14), ids + stamps, Measures(s, fl));
    BothFit(Wire.Run(4, 2) + Wire.Run(8, 2) + Wire.Run(4, 14), Wire.Run(1, 4), ids + stamps + Measures(s, fl), flags);
    BothFit(Wire.Run(4, 2) + Wire.Run(8, 2) + Wire.Run(4, 14) + Wire.Run(1, 4), Wire.Run(4, 1),
            ids + stamps + Measures(s, fl) + flags, reserved);
  }

  lemma SummarySurvives(s: Snapshot, fl: Floats)
    requires SnapshotFits(s)
    ensures SummaryFrom(Wire.CutRec(SummaryRec(s, fl)), fl) == SummaryOf(s, fl)
  {
    SignedSurvives(s.last.cx);
    SignedSurvives(s.last.cy);
  }

  function SummaryRecs(snaps: seq<Snapshot>, fl: Floats): seq<Wire.Rec>
    requires forall k :: 0 <= k < |snaps| ==> SnapshotFits(snaps[k])
  {
    seq(|snaps|, k requires 0 <= k < |snaps| && SnapshotFits(snaps[k]) => SummaryRec(snaps[k], fl))
  }

  function SummariesFrom(recs: seq<Wire.Rec>, fl: Floats): seq<Summary>
    requires forall k :: 0 <= k < |recs| ==> |recs[k].fields| == 23
  {
    seq(|recs|, k requires 0 <= k < |recs| && |recs[k].fields| == 23 => SummaryFrom(recs[k], fl))
  }

  predicate SnapshotsFit(frame: nat, stamp: nat, snaps: seq<Snapshot>) {
    HeaderFits(frame, stamp, |snaps|) && forall k :: 0 <= k < |snaps| ==> SnapshotFits(snaps[k])
  }

  lemma SummaryFrameFits(frame: nat, stamp: nat, snaps: seq<Snapshot>, fl: Floats)
    requires SnapshotsFit(frame, stamp, snaps) && FloatsFit(fl)
    ensures Wire.FrameFits(Wire.SUMMARY, Wire.Frame(frame, stamp, SummaryRecs(snaps, fl)))
  {
    Wire.Widths();
    Wire.RecordSizes();
    forall k | 0 <= k < |snaps|
      ensures Wire.RecFits(Wire.SUMMARY, SummaryRec(snaps[k], fl))
    {
      SummaryFits(snaps[k], fl);
    }
  }

  /** The bytes publish_frame writes. */
  ghost function SummaryBytes(frame: nat, stamp: nat, snaps: seq<Snapshot>, fl: Floats): seq<Wire.Byte>
    requires SnapshotsFit(frame, stamp, snaps) && FloatsFit(fl)
  {
    SummaryFrameFits(frame, stamp, snaps, fl);
    Wire.EncodeFrame(Wire.SUMMARY, Wire.Frame(frame, stamp, SummaryRecs(snaps, fl)))
  }

  /** The records the summarizer reads from the bytes of a summary frame. */
  function SummarizerInput(bs: seq<Wire.Byte>, fl: Floats): seq<Summary> {
    var g := FirstFrame(Wire.SUMMARY, Wire.SummarizerReader, bs);
    if forall k :: 0 <= k < |g.recs| ==> |g.recs[k].fields| == 23 then SummariesFrom(g.recs, fl) else []
  }

  /** The view of the manager lists every live track once, in any order. */
  ghost predicate IsView(snaps: seq<Snapshot>, m: Snapshots) {
    && (forall id :: id in m ==> m[id] in snaps)
    && (forall s :: s in snaps ==> s.id in m && m[s.id] == s)
  }

  /** The published frame lists every live track, in any order. */
  ghost predicate Publishes(frame: seq<Summary>, m: Snapshots, fl: Floats) {
    && (forall id :: id in m ==> SummaryOf(m[id], fl) in frame)
    && (forall x :: x in frame ==> x.id in m && x == SummaryOf(m[x.id], fl))
  }

  lemma {:induction false} SummariesSurvive(recs: seq<Wire.Rec>, snaps: seq<Snapshot>, fl: Floats)
    requires |recs| == |snaps| && forall k :: 0 <= k < |snaps| ==> SnapshotFits(snaps[k])
    requires forall k :: 0 <= k < |snaps| ==> recs[k] == Wire.CutRec(SummaryRec(snaps[k], fl))
    ensures forall k :: 0 <= k < |recs| ==> |recs[k].fields| == 23
    ensures forall k :: 0 <= k < |recs| ==> SummariesFrom(recs, fl)[k] == SummaryOf(snaps[k], fl)
  {
    forall k | 0 <= k < |snaps|
      ensures |recs[k].fields| == 23 && SummaryFrom(recs[k], fl) == SummaryOf(snaps[k], fl)
    {
      SummarySurvives(snaps[k], fl);
    }
  }

  /** The bytes of a summary frame reach the summarizer as one summary per live track. */
  lemma SummariesArrive(frame: nat, stamp: nat, snaps: seq<Snapshot>, m: Snapshots, fl: Floats, rest: seq<Wire.Byte>)
    requires SnapshotsFit(frame, stamp, snaps) && FloatsFit(fl) && IsView(snaps, m)
    ensures Publishes(SummarizerInput(SummaryBytes(frame, stamp, snaps, fl) + rest, fl), m, fl)
  {
    SummaryFrameFits(frame, stamp, snaps, fl);
    FrameArrives(Wire.SUMMARY, Wire.SummarizerReader, Wire.Frame(frame, stamp, SummaryRecs(snaps, fl)), rest);
    var bs := SummaryBytes(frame, stamp, snaps, fl) + rest;
    SummariesSurvive(FirstFrame(Wire.SUMMARY, Wire.SummarizerReader, bs).recs, snaps, fl);
    AllPublished(SummarizerInput(bs, fl), snaps, m, fl);
  }

  lemma AllPublished(got: seq<Summary>, snaps: seq<Snapshot>, m: Snapshots, fl: Floats)
    requires IsView(snaps, m) && |got| == |snaps| && forall k :: 0 <= k < |snaps| ==> got[k] == SummaryOf(snaps[k], fl)
    ensures Publishes(got, m, fl)
  {
    forall id | id in m
      ensures SummaryOf(m[id], fl) in got
    {
      var k :| 0 <= k < |snaps| && snaps[k] == m[id];
      assert got[k] == SummaryOf(m[id], fl);
    }
    forall x | x in got
      ensures x.id in m && x == SummaryOf(m[x.id], fl)
    {
      var k :| 0 <= k < |got| && got[k] == x;
      assert snaps[k] in snaps;
    }
  }
}
