/** The packed wire format shared by the data, tracks and events planes, and
    what a reader makes of a byte stream. */
module Wire {
  import opened Sequences


  type Byte = b: int | 0 <= b < 256

  // ---- little-endian integers ----

  function Pow256(k: nat): (r: nat)
    ensures r > 0
  {
    if k == 0 then 1 else 256 * Pow256(k - 1)
  }

  function LittleEndian(n: nat, k: nat): (r: seq<Byte>)
    ensures |r| == k
  {
    if k == 0 then [] else [n % 256] + LittleEndian(n / 256, k - 1)
  }

  function FromLittle(bs: seq<Byte>): nat {
    if bs == [] then 0 else bs[0] + 256 * FromLittle(bs[1..])
  }

  lemma {:induction false} LittleRoundTrip(n: nat, k: nat)
    requires n < Pow256(k)
    ensures FromLittle(LittleEndian(n, k)) == n
  {
    if k > 0 {
      LittleRoundTrip(n / 256, k - 1);
      assert LittleEndian(n, k)[1..] == LittleEndian(n / 256, k - 1);
    }
  }

  lemma Widths()
    ensures Pow256(2) == 65536 && Pow256(4) == 0x1_0000_0000
  {
    assert Pow256(1) == 256 * Pow256(0);
    assert Pow256(2) == 256 * Pow256(1);
    assert Pow256(3) == 256 * Pow256(2);
    assert Pow256(4) == 256 * Pow256(3);
  }

  /** int32 coordinates travel in two's complement. */
  function ToUnsigned32(x: int): nat
    requires -0x8000_0000 <= x < 0x8000_0000
  {
    if x < 0 then x + 0x1_0000_0000 else x
  }

  function ToSigned32(n: nat): int {
    if n < 0x8000_0000 then n else n - 0x1_0000_0000
  }

  // ---- class names ----

  /** A C string: bytes without a terminator. */
  predicate CName(name: seq<Byte>) {
    0 !in name
  }

  /** What strncpy(dst, name, 15) into a zeroed 16-byte field keeps. */
  function Cut(name: seq<Byte>): (r: seq<Byte>)
    ensures |r| <= 15
  {
    if |name| <= 15 then name else name[..15]
  }

  function Zeros(n: nat): (r: seq<Byte>)
    ensures |r| == n && forall i :: 0 <= i < n ==> r[i] == 0
  {
    if n == 0 then [] else [0] + Zeros(n - 1)
  }

  function NameField(name: seq<Byte>): (r: seq<Byte>)
    ensures |r| == 16
  {
    Cut(name) + Zeros(16 - |Cut(name)|)
  }

  /** Reading a name field as a C string. */
  function CString(bs: seq<Byte>): (r: seq<Byte>)
    ensures CName(r)
  {
    if bs == [] || bs[0] == 0 then [] else [bs[0]] + CString(bs[1..])
  }

  lemma {:induction false} CStringOf(name: seq<Byte>, rest: seq<Byte>)
    requires CName(name) && rest != [] && rest[0] == 0
    ensures CString(name + rest) == name
  {
    if name == [] {
      assert name + rest == rest;
    } else {
      assert (name + rest)[1..] == name[1..] + rest;
      CStringOf(name[1..], rest);
    }
  }

  lemma NameRoundTrip(name: seq<Byte>)
    requires CName(name)
    ensures CString(NameField(name)) == Cut(name)
  {
    CStringOf(Cut(name), Zeros(16 - |Cut(name)|));
  }

  // ---- records ----

  /** Byte widths of a record's fields after its name.  Floats are their raw bits. */
  type Layout = seq<nat>

  function Run(width: nat, n: nat): Layout {
    if n == 0 then [] else [width] + Run(width, n - 1)
  }

  /** confidence, left, top, right, bottom */
  const DETECTION: Layout := Run(4, 5)
  /** the same and track_id */
  const TRACK: Layout := Run(4, 6)
  /** track_id, frames_seen; first and last seen; duration to loiter_score; four
      flags; reserved */
  const SUMMARY: Layout := Run(4, 2) + Run(8, 2) + Run(4, 14) + Run(1, 4) + Run(4, 1)

  function Total(layout: Layout): nat {
    if layout == [] then 0 else layout[0] + Total(layout[1..])
  }

  function RecordSize(layout: Layout): nat {
    16 + Total(layout)
  }

  datatype Rec = Rec(name: seq<Byte>, fields: seq<nat>)

  datatype Frame = Frame(id: nat, timestamp: nat, recs: seq<Rec>)

  predicate FieldsFit(layout: Layout, fields: seq<nat>) {
    |fields| == |layout| && forall i :: 0 <= i < |fields| ==> fields[i] < Pow256(layout[i])
  }

  predicate RecFits(layout: Layout, r: Rec) {
    CName(r.name) && FieldsFit(layout, r.fields)
  }

  function EncodeFields(layout: Layout, fields: seq<nat>): (bs: seq<Byte>)
    requires |fields| == |layout|
    ensures |bs| == Total(layout)
  {
    if layout == [] then [] else LittleEndian(fields[0], layout[0]) + EncodeFields(layout[1..], fields[1..])
  }

  function DecodeFields(layout: Layout, bs: seq<Byte>): (fields: seq<nat>)
    requires |bs| == Total(layout)
    ensures |fields| == |layout|
  {
    if layout == [] then [] else [FromLittle(bs[..layout[0]])] + DecodeFields(layout[1..], bs[layout[0]..])
  }

  lemma {:induction false} FieldsRoundTrip(layout: Layout, fields: seq<nat>)
    requires FieldsFit(layout, fields)
    ensures DecodeFields(layout, EncodeFields(layout, fields)) == fields
  {
    if layout != [] {
      var bs := EncodeFields(layout, fields);
      LittleRoundTrip(fields[0], layout[0]);
      FieldsRoundTrip(layout[1..], fields[1..]);
      assert bs[..layout[0]] == LittleEndian(fields[0], layout[0]);
      assert bs[layout[0]..] == EncodeFields(layout[1..], fields[1..]);
    }
  }

  function EncodeRec(layout: Layout, r: Rec): (bs: seq<Byte>)
    requires |r.fields| == |layout|
    ensures |bs| == RecordSize(layout)
  {
    NameField(r.name) + EncodeFields(layout, r.fields)
  }

  function DecodeRec(layout: Layout, bs: seq<Byte>): (r: Rec)
    requires |bs| == RecordSize(layout)
    ensures |r.fields| == |layout|
  {
    Rec(CString(bs[..16]), DecodeFields(layout, bs[16..]))
  }

  /** A record as it comes out at the other end: only its name may be shorter. */
  function CutRec(r: Rec): Rec {
    r.(name := Cut(r.name))
  }

  lemma RecRoundTrip(layout: Layout, r: Rec)
    requires RecFits(layout, r)
    ensures DecodeRec(layout, EncodeRec(layout, r)) == CutRec(r)
  {
    var bs := EncodeRec(layout, r);
    assert bs[..16] == NameField(r.name) && bs[16..] == EncodeFields(layout, r.fields);
    NameRoundTrip(r.name);
    FieldsRoundTrip(layout, r.fields);
  }

  // ---- frames ----

  predicate RecsFit(layout: Layout, recs: seq<Rec>) {
    forall i :: 0 <= i < |recs| ==> RecFits(layout, recs[i])
  }

  /** A frame its sender can announce without truncating a header field. */
  predicate FrameFits(layout: Layout, f: Frame) {
    && f.id < Pow256(8) && f.timestamp < Pow256(8)
    && |f.recs| < 65536 && 24 + |f.recs| * RecordSize(layout) < Pow256(4)
    && RecsFit(layout, f.recs)
  }

  function CutRecs(recs: seq<Rec>): (r: seq<Rec>)
    ensures |r| == |recs|
  {
    if recs == [] then [] else [CutRec(recs[0])] + CutRecs(recs[1..])
  }

  function CutFrame(f: Frame): Frame {
    f.(recs := CutRecs(f.recs))
  }

  function EncodeBody(layout: Layout, recs: seq<Rec>): (bs: seq<Byte>)
    requires RecsFit(layout, recs)
    ensures |bs| == |recs| * RecordSize(layout)
  {
    if recs == [] then []
    else
      assert |recs| * RecordSize(layout) == RecordSize(layout) + (|recs| - 1) * RecordSize(layout);
      EncodeRec(layout, recs[0]) + EncodeBody(layout, recs[1..])
  }

  /** WireFrameHeader: id, timestamp, count, six reserved bytes. */
  function EncodeHeader(id: nat, timestamp: nat, count: nat): (bs: seq<Byte>)
    ensures |bs| == 24
  {
    LittleEndian(id, 8) + LittleEndian(timestamp, 8) + LittleEndian(count, 2) + Zeros(6)
  }

  function EncodeFrame(layout: Layout, f: Frame): (bs: seq<Byte>)
    requires RecsFit(layout, f.recs)
    ensures |bs| == 28 + |f.recs| * RecordSize(layout)
  {
    LittleEndian(24 + |f.recs| * RecordSize(layout), 4)
    + EncodeHeader(f.id, f.timestamp, |f.recs|) + EncodeBody(layout, f.recs)
  }

  datatype Header = Header(id: nat, timestamp: nat, count: nat)

  function DecodeHeader(bs: seq<Byte>): Header
    requires |bs| == 24
  {
    Header(FromLittle(bs[..8]), FromLittle(bs[8..16]), FromLittle(bs[16..18]))
  }

  lemma HeaderRoundTrip(id: nat, timestamp: nat, count: nat)
    requires id < Pow256(8) && timestamp < Pow256(8) && count < 65536
    ensures DecodeHeader(EncodeHeader(id, timestamp, count)) == Header(id, timestamp, count)
  {
    var bs := EncodeHeader(id, timestamp, count);
    Widths();
    LittleRoundTrip(id, 8);
    LittleRoundTrip(timestamp, 8);
    LittleRoundTrip(count, 2);
    assert bs[..8] == LittleEndian(id, 8) && bs[8..16] == LittleEndian(timestamp, 8);
    assert bs[16..18] == LittleEndian(count, 2);
  }

  /** The first n records of a body, of those that are there in full. */
  function DecodeBody(layout: Layout, n: nat, bs: seq<Byte>): (recs: seq<Rec>)
    ensures |recs| <= n
    ensures |bs| >= n * RecordSize(layout) ==> |recs| == n
  {
    if n == 0 || |bs| < RecordSize(layout) then
      assert n > 0 ==> n * RecordSize(layout) >= RecordSize(layout);
      []
    else
      assert (n - 1) * RecordSize(layout) + RecordSize(layout) == n * RecordSize(layout);
      [DecodeRec(layout, bs[..RecordSize(layout)])] + DecodeBody(layout, n - 1, bs[RecordSize(layout)..])
  }

  lemma BodyHead(layout: Layout, r: Rec, rest: seq<Byte>, n: nat)
    requires RecFits(layout, r)
    ensures DecodeBody(layout, n + 1, EncodeRec(layout, r) + rest) == [CutRec(r)] + DecodeBody(layout, n, rest)
  {
    var bs := EncodeRec(layout, r) + rest;
    RecRoundTrip(layout, r);
    assert bs[..RecordSize(layout)] == EncodeRec(layout, r);
    assert bs[RecordSize(layout)..] == rest;
  }

  lemma {:induction false} BodyRoundTrip(layout: Layout, recs: seq<Rec>, rest: seq<Byte>)
    requires RecsFit(layout, recs)
    ensures DecodeBody(layout, |recs|, EncodeBody(layout, recs) + rest) == CutRecs(recs)
  {
    if recs != [] {
      var tail := EncodeBody(layout, recs[1..]);
      BodyRoundTrip(layout, recs[1..], rest);
      BodyHead(layout, recs[0], tail + rest, |recs| - 1);
      Associate(EncodeRec(layout, recs[0]), tail, rest);
    }
  }

  // ---- readers ----

  /** bytetrack_service, temporal_service and event_summarizer. */
  datatype Reader = TrackerReader | TemporalReader | SummarizerReader

  /** A default-constructed detection: no name, all fields zero. */
  function Blank(layout: Layout): Rec {
    Rec([], Zeroes(|layout|))
  }

  function Zeroes(n: nat): (r: seq<nat>)
    ensures |r| == n
  {
    if n == 0 then [] else [0] + Zeroes(n - 1)
  }

  function Blanks(layout: Layout, n: nat): (r: seq<Rec>)
    ensures |r| == n
  {
    if n == 0 then [] else [Blank(layout)] + Blanks(layout, n - 1)
  }

  /** What a reader processes when the stream ends among the records of a frame:
      the tracker pads with blank detections, the temporal service goes on with
      the records it has, the summarizer drops the frame. */
  function Partial(layout: Layout, reader: Reader, hdr: Header, body: seq<Byte>): seq<Frame> {
    var got := DecodeBody(layout, hdr.count, body);
    match reader
    case TrackerReader => [Frame(hdr.id, hdr.timestamp, got + Blanks(layout, hdr.count - |got|))]
    case TemporalReader => [Frame(hdr.id, hdr.timestamp, got)]
    case SummarizerReader => []
  }

  /** A stream starts with a header its reader accepts: the two services compare
      the announced length with the count, the summarizer does not. */
  predicate HeaderOk(layout: Layout, reader: Reader, bs: seq<Byte>) {
    && 28 <= |bs| && 24 <= FromLittle(bs[..4])
    && (!reader.SummarizerReader? ==>
          FromLittle(bs[..4]) == 24 + DecodeHeader(bs[4..28]).count * RecordSize(layout))
  }

  /** The frames a reader processes before it gives the connection up. */
  function Deliver(layout: Layout, reader: Reader, bs: seq<Byte>): seq<Frame>
    decreases |bs|
  {
    if !HeaderOk(layout, reader, bs) then []
    else
      var hdr := DecodeHeader(bs[4..28]);
      if |bs| < 28 + hdr.count * RecordSize(layout) then Partial(layout, reader, hdr, bs[28..])
      else
        [Frame(hdr.id, hdr.timestamp, DecodeBody(layout, hdr.count, bs[28..]))]
        + Deliver(layout, reader, bs[28 + hdr.count * RecordSize(layout)..])
  }

  predicate AllFit(layout: Layout, fs: seq<Frame>) {
    forall i :: 0 <= i < |fs| ==> FrameFits(layout, fs[i])
  }

  function EncodeAll(layout: Layout, fs: seq<Frame>): seq<Byte>
    requires AllFit(layout, fs)
  {
    if fs == [] then [] else EncodeFrame(layout, fs[0]) + EncodeAll(layout, fs[1..])
  }

  function CutAll(fs: seq<Frame>): seq<Frame> {
    if fs == [] then [] else [CutFrame(fs[0])] + CutAll(fs[1..])
  }

  /** The parts of a stream that starts with the frame `f`, possibly cut short. */
  lemma FramePrefix(layout: Layout, f: Frame, bs: seq<Byte>)
    requires FrameFits(layout, f) && 28 <= |bs| && bs[..28] == EncodeFrame(layout, f)[..28]
    ensures FromLittle(bs[..4]) == 24 + |f.recs| * RecordSize(layout)
    ensures DecodeHeader(bs[4..28]) == Header(f.id, f.timestamp, |f.recs|)
  {
    var e := EncodeFrame(layout, f);
    LittleRoundTrip(24 + |f.recs| * RecordSize(layout), 4);
    HeaderRoundTrip(f.id, f.timestamp, |f.recs|);
    assert bs[..4] == bs[..28][..4] == e[..28][..4] == LittleEndian(24 + |f.recs| * RecordSize(layout), 4);
    assert bs[4..28] == bs[..28][4..] == e[..28][4..] == EncodeHeader(f.id, f.timestamp, |f.recs|);
  }

  /** A whole frame at the front of a stream is delivered, and exactly its bytes are consumed. */
  lemma FrameRoundTrip(layout: Layout, reader: Reader, f: Frame, rest: seq<Byte>)
    requires FrameFits(layout, f)
    ensures Deliver(layout, reader, EncodeFrame(layout, f) + rest) == [CutFrame(f)] + Deliver(layout, reader, rest)
  {
    var bs := EncodeFrame(layout, f) + rest;
    assert bs[..28] == EncodeFrame(layout, f)[..28];
    FramePrefix(layout, f, bs);
    assert bs[28..] == EncodeBody(layout, f.recs) + rest;
    BodyRoundTrip(layout, f.recs, rest);
    assert bs[28 + |f.recs| * RecordSize(layout)..] == rest;
  }

  /** The records of a frame that are there in full when the stream ends at `cut`. */
  function Whole(layout: Layout, cut: nat): (m: nat)
    ensures cut >= 28 ==> 28 + m * RecordSize(layout) <= cut < 28 + (m + 1) * RecordSize(layout)
  {
    if cut < 28 then 0 else (cut - 28) / RecordSize(layout)
  }

  lemma Times(a: nat, b: nat, d: nat)
    requires a < b
    ensures a * d + d <= b * d
  {
    assert (a + 1) * d <= b * d;
  }

  lemma OneLess(m: nat, size: nat, n: nat)
    requires 0 < m && m * size <= n < (m + 1) * size
    ensures size <= n && (m - 1) * size <= n - size < m * size
  {
    assert m * size == (m - 1) * size + size && (m + 1) * size == m * size + size;
  }

  lemma PrefixPast(a: seq<Byte>, b: seq<Byte>, n: nat)
    requires |a| <= n <= |a| + |b|
    ensures (a + b)[..n] == a + b[..n - |a|]
  {
  }

  lemma FewerWhole(layout: Layout, recs: seq<Rec>, n: nat, m: nat)
    requires RecsFit(layout, recs) && n < |EncodeBody(layout, recs)| && m * RecordSize(layout) <= n
    ensures m < |recs|
  {
    if m >= |recs| && recs != [] {
      Times(|recs| - 1, m, RecordSize(layout));
    }
  }

  lemma CutRecsHead(recs: seq<Rec>, m: nat)
    requires 0 < m <= |recs|
    ensures CutRecs(recs[..m]) == [CutRec(recs[0])] + CutRecs(recs[1..][..m - 1])
  {
    assert recs[..m][1..] == recs[1..][..m - 1];
  }

  lemma EncodedPrefix(layout: Layout, recs: seq<Rec>, n: nat)
    requires RecsFit(layout, recs) && recs != []
    requires RecordSize(layout) <= n && n - RecordSize(layout) <= |EncodeBody(layout, recs[1..])|
    ensures n <= |EncodeBody(layout, recs)|
    ensures EncodeBody(layout, recs)[..n]
         == EncodeRec(layout, recs[0]) + EncodeBody(layout, recs[1..])[..n - RecordSize(layout)]
  {
    PrefixPast(EncodeRec(layout, recs[0]), EncodeBody(layout, recs[1..]), n);
  }

  /** A body cut off at n bytes still decodes to its first m records. */
  lemma {:induction false} CutBody(layout: Layout, recs: seq<Rec>, n: nat, m: nat)
    requires RecsFit(layout, recs) && n < |EncodeBody(layout, recs)|
    requires m * RecordSize(layout) <= n < (m + 1) * RecordSize(layout)
    ensures m < |recs| && DecodeBody(layout, |recs|, EncodeBody(layout, recs)[..n]) == CutRecs(recs[..m])
  {
    FewerWhole(layout, recs, n, m);
    if m > 0 {
      OneLess(m, RecordSize(layout), n);
      CutBody(layout, recs[1..], n - RecordSize(layout), m - 1);
      EncodedPrefix(layout, recs, n);
      BodyHead(layout, recs[0], EncodeBody(layout, recs[1..])[..n - RecordSize(layout)], |recs| - 1);
      CutRecsHead(recs, m);
    }
  }

  lemma {:induction false} CutRecsSplit(recs: seq<Rec>, m: nat)
    requires m <= |recs|
    ensures CutRecs(recs) == CutRecs(recs[..m]) + CutRecs(recs[m..])
  {
    if m > 0 {
      CutRecsSplit(recs[1..], m - 1);
      assert recs[..m] == [recs[0]] + recs[1..][..m - 1];
    } else {
      assert recs[..0] == [];
    }
  }

  /** What stands in for the missing records. */
  function Padding(layout: Layout, reader: Reader, missing: nat): seq<Rec> {
    if reader.TrackerReader? then Blanks(layout, missing) else []
  }

  lemma CutIsPartial(layout: Layout, reader: Reader, f: Frame, cut: nat)
    requires FrameFits(layout, f) && 28 <= cut < |EncodeFrame(layout, f)|
    ensures Deliver(layout, reader, EncodeFrame(layout, f)[..cut]) ==
            Partial(layout, reader, Header(f.id, f.timestamp, |f.recs|), EncodeFrame(layout, f)[..cut][28..])
  {
    var bs := EncodeFrame(layout, f)[..cut];
    assert bs[..28] == EncodeFrame(layout, f)[..28];
    FramePrefix(layout, f, bs);
  }

  lemma CutDelivers(layout: Layout, reader: Reader, f: Frame, cut: nat)
    requires FrameFits(layout, f) && 28 <= cut < |EncodeFrame(layout, f)|
    ensures var m := Whole(layout, cut);
      && m < |f.recs|
      && Partial(layout, reader, Header(f.id, f.timestamp, |f.recs|), EncodeFrame(layout, f)[..cut][28..]) ==
         if reader.SummarizerReader? then []
         else [Frame(f.id, f.timestamp, CutRecs(f.recs[..m]) + Padding(layout, reader, |f.recs| - m))]
  {
    var m := Whole(layout, cut);
    assert EncodeFrame(layout, f)[..cut][28..] == EncodeBody(layout, f.recs)[..cut - 28];
    CutBody(layout, f.recs, cut - 28, m);
    assert CutRecs(f.recs[..m]) + [] == CutRecs(f.recs[..m]);
  }

  /** A stream that ends inside a frame, at offset `cut`.  A frame is processed
      for it exactly when the header arrived in full and the reader is not the
      summarizer: the records that are there, which the tracker pads with blank
      ones.  That is the frame being sent exactly when the tracker pads and every
      missing record is blank. */
  lemma CutShort(layout: Layout, reader: Reader, f: Frame, cut: nat)
    requires FrameFits(layout, f) && cut < |EncodeFrame(layout, f)|
    ensures cut >= 28 ==> Whole(layout, cut) < |f.recs|
    ensures var d := Deliver(layout, reader, EncodeFrame(layout, f)[..cut]);
      && (d == [] <==> cut < 28 || reader.SummarizerReader?)
      && (d != [] ==>
            var m := Whole(layout, cut);
            && d == [f.(recs := CutRecs(f.recs[..m]) + Padding(layout, reader, |f.recs| - m))]
            && (d == [CutFrame(f)] <==>
                  reader.TrackerReader? && CutRecs(f.recs[m..]) == Blanks(layout, |f.recs| - m)))
  {
    if cut >= 28 {
      CutIsPartial(layout, reader, f, cut);
      CutDelivers(layout, reader, f, cut);
      var m := Whole(layout, cut);
      CutRecsSplit(f.recs, m);
      SameEnding(CutRecs(f.recs[..m]), Padding(layout, reader, |f.recs| - m), CutRecs(f.recs[m..]));
    }
  }

  /** Frames sent whole, then one cut short: the readers process the whole frames
      and nothing else, exactly when the cut falls before the end of the header
      (or the reader is the summarizer). */
  lemma {:induction false} TruncatedStream(layout: Layout, reader: Reader, fs: seq<Frame>, f: Frame, cut: nat)
    requires AllFit(layout, fs)
    requires FrameFits(layout, f) && cut < |EncodeFrame(layout, f)|
    ensures var bs := EncodeAll(layout, fs) + EncodeFrame(layout, f)[..cut];
      && Deliver(layout, reader, bs) == CutAll(fs) + Deliver(layout, reader, EncodeFrame(layout, f)[..cut])
      && (Deliver(layout, reader, bs) == CutAll(fs) <==> cut < 28 || reader.SummarizerReader?)
  {
    DeliverAppend(layout, reader, fs, EncodeFrame(layout, f)[..cut]);
    CutShort(layout, reader, f, cut);
  }

  /** Whole frames in front of anything are delivered first. */
  lemma {:induction false} DeliverAppend(layout: Layout, reader: Reader, fs: seq<Frame>, tail: seq<Byte>)
    requires AllFit(layout, fs)
    ensures Deliver(layout, reader, EncodeAll(layout, fs) + tail) == CutAll(fs) + Deliver(layout, reader, tail)
  {
    if fs == [] {
      assert EncodeAll(layout, fs) + tail == tail;
    } else {
      var others := EncodeAll(layout, fs[1..]);
      DeliverAppend(layout, reader, fs[1..], tail);
      FrameRoundTrip(layout, reader, fs[0], others + tail);
      Associate(EncodeFrame(layout, fs[0]), others, tail);
      Associate([CutFrame(fs[0])], CutAll(fs[1..]), Deliver(layout, reader, tail));
    }
  }

  /** Whatever frames are sent, every reader recovers exactly those frames, with
      names cut to 15 bytes. */
  lemma StreamRoundTrip(layout: Layout, reader: Reader, fs: seq<Frame>)
    requires AllFit(layout, fs)
    ensures Deliver(layout, reader, EncodeAll(layout, fs)) == CutAll(fs)
  {
    DeliverAppend(layout, reader, fs, []);
    assert EncodeAll(layout, fs) + [] == EncodeAll(layout, fs);
  }

  lemma {:induction false} TotalAppend(a: Layout, b: Layout)
    ensures Total(a + b) == Total(a) + Total(b)
  {
    if a == [] {
      assert a + b == b;
    } else {
      assert (a + b)[1..] == a[1..] + b;
      TotalAppend(a[1..], b);
    }
  }

  lemma {:induction false} TotalRun(width: nat, n: nat)
    ensures Total(Run(width, n)) == width * n
  {
    if n > 0 {
      TotalRun(width, n - 1);
      assert Run(width, n)[1..] == Run(width, n - 1);
    }
  }

  /** The three record sizes wire_protocol.h asserts. */
  lemma RecordSizes()
    ensures RecordSize(DETECTION) == 36 && RecordSize(TRACK) == 40 && RecordSize(SUMMARY) == 104
  {
    TotalRun(4, 5);
    TotalRun(4, 6);
    TotalRun(4, 2);
    TotalRun(8, 2);
    TotalRun(4, 14);
    TotalRun(1, 4);
    TotalRun(4, 1);
    TotalAppend(Run(4, 2), Run(8, 2));
    TotalAppend(Run(4, 2) + Run(8, 2), Run(4, 14));
    TotalAppend(Run(4, 2) + Run(8, 2) + Run(4, 14), Run(1, 4));
    TotalAppend(Run(4, 2) + Run(8, 2) + Run(4, 14) + Run(1, 4), Run(4, 1));
  }
}
