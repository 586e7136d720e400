/** Where each value of a frame stands in its bytes, read byte by byte. */
module WireLayout {
  import opened Wire
  import opened Tracker
  import opened TrackStates
  import opened Links

  /** The w bytes at `off`, least significant first. */
  function UintAt(bs: seq<Byte>, off: nat, w: nat): nat
    requires off + w <= |bs|
  {
    if w == 0 then 0 else UintAt(bs, off, w - 1) + bs[off + w - 1] * Pow256(w - 1)
  }

  /** The same as a two's complement int32. */
  function IntAt(bs: seq<Byte>, off: nat): int
    requires off + 4 <= |bs|
  {
    if bs[off + 3] < 128 then UintAt(bs, off, 4) else UintAt(bs, off, 4) - 0x1_0000_0000
  }

  lemma Expand(c: nat, d: nat, p: nat)
    requires d < 256
    ensures (256 * c + d) * p == c * (256 * p) + d * p && 0 <= d * p <= 255 * p
  {
    assert (255 - d) * p >= 0;
  }

  lemma NextDigit(n: nat, p: nat)
    requires p > 0
    ensures n % (256 * p) == n % p + n / p % 256 * p
  {
    var q := n / p;
    Expand(q / 256, q % 256, p);
    assert q == 256 * (q / 256) + q % 256;
    Divided(n, 256 * p, q / 256, n % p + q % 256 * p);
  }

  lemma Divided(n: nat, d: nat, q: nat, r: nat)
    requires d > 0 && n == q * d + r && r < d
    ensures n / d == q && n % d == r
  {
    var k: int := n / d;
    assert n == k * d + n % d;
    assert k >= q + 1 ==> k * d >= (q + 1) * d == q * d + d;
    assert k <= q - 1 ==> k * d <= (q - 1) * d == q * d - d;
  }

  /** Byte k of a little-endian integer is its k-th base-256 digit. */
  lemma {:induction false} LittleDigit(n: nat, w: nat, k: nat)
    requires k < w
    ensures LittleEndian(n, w)[k] == n / Pow256(k) % 256
  {
    if k > 0 {
      LittleDigit(n / 256, w - 1, k - 1);
      DivAgain(n, Pow256(k - 1));
    }
  }

  lemma DivAgain(n: nat, p: nat)
    requires p > 0
    ensures n / 256 / p == n / (256 * p)
  {
    var q := n / 256;
    assert n == 256 * q + n % 256 && q == p * (q / p) + q % p;
    var low := 256 * (q % p) + n % 256;
    assert n == q / p * (256 * p) + low by {
      assert 256 * q == 256 * (p * (q / p)) + 256 * (q % p);
    }
    Divided(n, 256 * p, q / p, low);
  }

  /** The first w digits make up the number modulo 256^w. */
  lemma {:induction false} DigitsMakeUint(bs: seq<Byte>, off: nat, n: nat, w: nat)
    requires off + w <= |bs| && forall k :: 0 <= k < w ==> bs[off + k] == n / Pow256(k) % 256
    ensures UintAt(bs, off, w) == n % Pow256(w)
  {
    if w > 0 {
      DigitsMakeUint(bs, off, n, w - 1);
      NextDigit(n, Pow256(w - 1));
    }
  }

  // ---- what stands where ----

  ghost predicate Stands(e: seq<Byte>, r: nat, part: seq<Byte>) {
    r + |part| <= |e| && e[r..r + |part|] == part
  }

  lemma StandsFirst(a: seq<Byte>, b: seq<Byte>)
    ensures Stands(a + b, 0, a)
  {
  }

  lemma StandsLater(a: seq<Byte>, b: seq<Byte>, o: nat, part: seq<Byte>)
    requires Stands(b, o, part)
    ensures Stands(a + b, |a| + o, part)
  {
    assert (a + b)[|a| + o..|a| + o + |part|] == b[o..o + |part|];
  }

  /** What stands at o in a part that stands at r. */
  lemma StandsInside(e: seq<Byte>, r: nat, whole: seq<Byte>, o: nat, part: seq<Byte>)
    requires Stands(e, r, whole) && Stands(whole, o, part)
    ensures Stands(e, r + o, part)
  {
    forall i | r + o <= i < r + o + |part|
      ensures e[i] == part[i - r - o]
    {
      assert e[i] == e[r..r + |whole|][i - r] && whole[i - r] == whole[o..o + |part|][i - r - o];
    }
  }

  /** A little-endian integer is read back wherever it stands. */
  lemma UintStands(bs: seq<Byte>, off: nat, n: nat, w: nat)
    requires Stands(bs, off, LittleEndian(n, w)) && n < Pow256(w)
    ensures off + w <= |bs| && UintAt(bs, off, w) == n
  {
    forall k | 0 <= k < w
      ensures bs[off + k] == n / Pow256(k) % 256
    {
      LittleDigit(n, w, k);
      assert bs[off + k] == bs[off..off + w][k];
    }
    DigitsMakeUint(bs, off, n, w);
    Divided(n, Pow256(w), 0, n);
  }

  // ---- fields of a record ----

  /** Where field j begins, counted from the first. */
  function Offset(layout: Layout, j: nat): nat
    requires j <= |layout|
  {
    if j == 0 then 0 else layout[0] + Offset(layout[1..], j - 1)
  }

  lemma {:induction false} FieldStands(layout: Layout, fields: seq<nat>, j: nat)
    requires |fields| == |layout| && j < |layout|
    ensures Stands(EncodeFields(layout, fields), Offset(layout, j), LittleEndian(fields[j], layout[j]))
  {
    var first, rest := LittleEndian(fields[0], layout[0]), EncodeFields(layout[1..], fields[1..]);
    if j == 0 {
      StandsFirst(first, rest);
    } else {
      FieldStands(layout[1..], fields[1..], j - 1);
      StandsLater(first, rest, Offset(layout[1..], j - 1), LittleEndian(fields[j], layout[j]));
    }
  }

  /** A name field holds up to fifteen bytes of the name and then zeros. */
  predicate NameAt(bs: seq<Byte>, off: nat, name: seq<Byte>)
    requires off + 16 <= |bs|
  {
    forall i :: 0 <= i < 16 ==> bs[off + i] == if i < |name| && i < 15 then name[i] else 0
  }

  // ---- records of a frame ----

  /** k records of z bytes. */
  function Skip(z: nat, k: nat): nat {
    if k == 0 then 0 else z + Skip(z, k - 1)
  }

  lemma {:induction false} SkipIs(z: nat, k: nat)
    ensures Skip(z, k) == k * z
  {
    if k > 0 {
      SkipIs(z, k - 1);
    }
  }

  lemma {:induction false} RecStands(layout: Layout, recs: seq<Rec>, k: nat)
    requires RecsFit(layout, recs) && k < |recs|
    ensures Stands(EncodeBody(layout, recs), Skip(RecordSize(layout), k), EncodeRec(layout, recs[k]))
  {
    var first, rest := EncodeRec(layout, recs[0]), EncodeBody(layout, recs[1..]);
    if k == 0 {
      StandsFirst(first, rest);
    } else {
      RecStands(layout, recs[1..], k - 1);
      StandsLater(first, rest, Skip(RecordSize(layout), k - 1), EncodeRec(layout, recs[k]));
    }
  }

  lemma RecAfterHeader(layout: Layout, f: Frame, k: nat)
    requires FrameFits(layout, f) && k < |f.recs|
    ensures Stands(EncodeFrame(layout, f), 28 + Skip(RecordSize(layout), k), EncodeRec(layout, f.recs[k]))
  {
    RecStands(layout, f.recs, k);
    var head := LittleEndian(24 + |f.recs| * RecordSize(layout), 4)
                + EncodeHeader(f.id, f.timestamp, |f.recs|);
    StandsLater(head, EncodeBody(layout, f.recs), Skip(RecordSize(layout), k), EncodeRec(layout, f.recs[k]));
  }

  /** The records of a frame stand one after the other behind its header. */
  lemma RecInFrame(layout: Layout, f: Frame, k: nat)
    requires FrameFits(layout, f) && k < |f.recs|
    ensures Stands(EncodeFrame(layout, f), 28 + k * RecordSize(layout), EncodeRec(layout, f.recs[k]))
  {
    RecAfterHeader(layout, f, k);
    SkipIs(RecordSize(layout), k);
  }

  lemma FieldInRec(layout: Layout, rec: Rec, j: nat)
    requires |rec.fields| == |layout| && j < |layout|
    ensures Stands(EncodeRec(layout, rec), 16 + Offset(layout, j), LittleEndian(rec.fields[j], layout[j]))
  {
    FieldStands(layout, rec.fields, j);
    StandsLater(NameField(rec.name), EncodeFields(layout, rec.fields), Offset(layout, j),
                LittleEndian(rec.fields[j], layout[j]));
  }

  /** Field j of a record that stands at r in e. */
  lemma FieldInside(e: seq<Byte>, r: nat, layout: Layout, rec: Rec, j: nat)
    requires RecFits(layout, rec) && j < |layout| && Stands(e, r, EncodeRec(layout, rec))
    ensures r + (16 + Offset(layout, j)) + layout[j] <= |e|
    ensures UintAt(e, r + (16 + Offset(layout, j)), layout[j]) == rec.fields[j]
  {
    FieldInRec(layout, rec, j);
    StandsInside(e, r, EncodeRec(layout, rec), 16 + Offset(layout, j), LittleEndian(rec.fields[j], layout[j]));
    UintStands(e, r + (16 + Offset(layout, j)), rec.fields[j], layout[j]);
  }

  /** Field j has width w and begins o bytes after the first. */
  ghost predicate Placed(layout: Layout, j: nat, o: nat, w: nat) {
    j < |layout| && o == Offset(layout, j) && w == layout[j]
  }

  lemma FieldInsideAt(e: seq<Byte>, r: nat, layout: Layout, rec: Rec, j: nat, o: nat, w: nat)
    requires RecFits(layout, rec) && Placed(layout, j, o, w) && Stands(e, r, EncodeRec(layout, rec))
    ensures r + 16 + o + w <= |e| && UintAt(e, r + 16 + o, w) == rec.fields[j]
  {
    FieldInside(e, r, layout, rec, j);
  }

  lemma NameInField(name: seq<Byte>)
    ensures NameAt(NameField(name), 0, name)
  {
  }

  lemma NameInside(e: seq<Byte>, r: nat, layout: Layout, rec: Rec)
    requires |rec.fields| == |layout| && Stands(e, r, EncodeRec(layout, rec))
    ensures r + 16 <= |e| && NameAt(e, r, rec.name)
  {
    NameInField(rec.name);
    StandsFirst(NameField(rec.name), EncodeFields(layout, rec.fields));
    StandsInside(e, r, EncodeRec(layout, rec), 0, NameField(rec.name));
    NameMoves(e, r, NameField(rec.name), rec.name);
  }

  lemma NameMoves(e: seq<Byte>, r: nat, field: seq<Byte>, name: seq<Byte>)
    requires |field| == 16 && Stands(e, r, field) && NameAt(field, 0, name)
    ensures NameAt(e, r, name)
  {
    forall i | r <= i < r + 16
      ensures e[i] == field[i - r]
    {
      assert e[i] == e[r..r + 16][i - r];
    }
    assert forall i :: 0 <= i < 16 ==> field[i] == field[0 + i];
  }

  /** The frame's length, header and reserved bytes. */
  ghost predicate HeaderStands(bs: seq<Byte>, size: nat, id: nat, stamp: nat, count: nat) {
    && |bs| == 28 + count * size
    && UintAt(bs, 0, 4) == 24 + count * size
    && UintAt(bs, 4, 8) == id && UintAt(bs, 12, 8) == stamp && UintAt(bs, 20, 2) == count
    && forall i :: 22 <= i < 28 ==> bs[i] == 0
  }

  lemma HeaderInFrame(layout: Layout, f: Frame)
    requires FrameFits(layout, f)
    ensures HeaderStands(EncodeFrame(layout, f), RecordSize(layout), f.id, f.timestamp, |f.recs|)
  {
    var e, n := EncodeFrame(layout, f), |f.recs|;
    Widths();
    assert Stands(e, 0, LittleEndian(24 + n * RecordSize(layout), 4));
    assert Stands(e, 4, LittleEndian(f.id, 8));
    assert Stands(e, 12, LittleEndian(f.timestamp, 8));
    assert Stands(e, 20, LittleEndian(n, 2));
    assert Stands(e, 22, Zeros(6));
    UintStands(e, 0, 24 + n * RecordSize(layout), 4);
    UintStands(e, 4, f.id, 8);
    UintStands(e, 12, f.timestamp, 8);
    UintStands(e, 20, n, 2);
    forall i | 22 <= i < 28
      ensures e[i] == 0
    {
      assert e[i] == e[22..28][i - 22];
    }
  }

  // ---- the three record kinds ----

  lemma {:induction false} OffsetRun(w: nat, n: nat, j: nat)
    requires j <= |Run(w, n)|
    ensures Offset(Run(w, n), j) == j * w && (j < |Run(w, n)| ==> Run(w, n)[j] == w)
  {
    if j > 0 {
      OffsetRun(w, n - 1, j - 1);
    }
  }

  lemma {:induction false} OffsetAppend(a: Layout, b: Layout, j: nat)
    requires j <= |a| + |b|
    ensures Offset(a + b, j) == if j <= |a| then Offset(a, j) else Total(a) + Offset(b, j - |a|)
  {
    if j > 0 && a != [] {
      assert (a + b)[1..] == a[1..] + b;
      OffsetAppend(a[1..], b, j - 1);
    } else if a == [] {
      assert a + b == b;
    }
  }

  lemma {:induction false} UintBelow(bs: seq<Byte>, off: nat, w: nat)
    requires off + w <= |bs|
    ensures UintAt(bs, off, w) < Pow256(w)
  {
    if w > 0 {
      UintBelow(bs, off, w - 1);
      Expand(0, bs[off + w - 1], Pow256(w - 1));
    }
  }

  /** A coordinate in two's complement is read back. */
  lemma IntStands(bs: seq<Byte>, off: nat, x: int)
    requires off + 4 <= |bs| && Int32(x) && UintAt(bs, off, 4) == ToUnsigned32(x)
    ensures IntAt(bs, off) == x
  {
    UintBelow(bs, off, 3);
    assert Pow256(1) == 256 && Pow256(2) == 65536 && Pow256(3) == 0x100_0000;
    assert UintAt(bs, off, 4) == UintAt(bs, off, 3) + (bs[off + 3] as int) * 0x100_0000;
  }

  predicate BoxStands(bs: seq<Byte>, off: nat, b: Box)
    requires off + 16 <= |bs|
  {
    IntAt(bs, off) == b.left && IntAt(bs, off + 4) == b.top && IntAt(bs, off + 8) == b.right
    && IntAt(bs, off + 12) == b.bottom
  }

  /** A detection at r: name, confidence and box. */
  predicate DetStands(bs: seq<Byte>, r: nat, d: Det)
    requires r + 36 <= |bs|
  {
    NameAt(bs, r, d.name) && UintAt(bs, r + 16, 4) == d.conf && BoxStands(bs, r + 20, d.box)
  }

  lemma DetFieldsStand(bs: seq<Byte>, r: nat, d: Det)
    requires DetFits(d) && r + 36 <= |bs| && NameAt(bs, r, d.name)
    requires forall j :: 0 <= j < 5 ==> UintAt(bs, r + (16 + 4 * j), 4) == DetFields(d)[j]
    ensures DetStands(bs, r, d)
  {
    var f := DetFields(d);
    assert UintAt(bs, r + (16 + 4 * 0), 4) == f[0];
    assert UintAt(bs, r + (16 + 4 * 1), 4) == f[1];
    assert UintAt(bs, r + (16 + 4 * 2), 4) == f[2];
    assert UintAt(bs, r + (16 + 4 * 3), 4) == f[3];
    assert UintAt(bs, r + (16 + 4 * 4), 4) == f[4];
    IntStands(bs, r + 20, d.box.left);
    IntStands(bs, r + 24, d.box.top);
    IntStands(bs, r + 28, d.box.right);
    IntStands(bs, r + 32, d.box.bottom);
  }

  /** Four-byte fields stand four bytes apart. */
  lemma WordStands(bs: seq<Byte>, r: nat, n: nat, rec: Rec, j: nat)
    requires RecFits(Run(4, n), rec) && j < |rec.fields| && Stands(bs, r, EncodeRec(Run(4, n), rec))
    ensures r + (16 + 4 * j) + 4 <= |bs| && UintAt(bs, r + (16 + 4 * j), 4) == rec.fields[j]
  {
    OffsetRun(4, n, j);
    FieldInside(bs, r, Run(4, n), rec, j);
  }

  /** Wherever a detection record stands, its fields stand in it. */
  lemma DetRecStands(bs: seq<Byte>, r: nat, d: Det)
    requires DetFits(d) && Stands(bs, r, EncodeRec(DETECTION, DetRec(d)))
    ensures r + 36 <= |bs| && DetStands(bs, r, d)
  {
    DetSurvives(d);
    RecordSizes();
    NameInside(bs, r, DETECTION, DetRec(d));
    forall j | 0 <= j < 5
      ensures UintAt(bs, r + (16 + 4 * j), 4) == DetFields(d)[j]
    {
      WordStands(bs, r, 5, DetRec(d), j);
    }
    DetFieldsStand(bs, r, d);
  }

  /** A track record is a detection record followed by the id. */
  lemma OutputRecStands(bs: seq<Byte>, r: nat, o: Output)
    requires OutputFits(o) && Stands(bs, r, EncodeRec(TRACK, OutputRec(o)))
    ensures r + 40 <= |bs| && DetStands(bs, r, o.det) && UintAt(bs, r + 36, 4) == o.id
  {
    OutputSurvives(o);
    RecordSizes();
    NameInside(bs, r, TRACK, OutputRec(o));
    forall j | 0 <= j < 5
      ensures UintAt(bs, r + (16 + 4 * j), 4) == DetFields(o.det)[j]
    {
      WordStands(bs, r, 6, OutputRec(o), j);
    }
    DetFieldsStand(bs, r, o.det);
    WordStands(bs, r, 6, OutputRec(o), 5);
  }

  // ---- the summary record ----

  const IDS: Layout := Run(4, 2)
  const STAMPS: Layout := Run(8, 2)
  const MEASURES: Layout := Run(4, 14)
  const FLAGS: Layout := Run(1, 4)

  /** Widths and offsets of the 23 fields. */
  function SummaryWidth(j: nat): nat {
    if j < 2 then 4 else if j < 4 then 8 else if j < 18 then 4 else if j < 22 then 1 else 4
  }

  function SummaryOffset(j: nat): nat {
    if j < 2 then 4 * j else if j < 4 then 8 * j - 8 else if j < 18 then 4 * j + 8 else if j < 22 then j + 62 else 84
  }

  lemma {:induction false} OffsetAll(layout: Layout)
    ensures Offset(layout, |layout|) == Total(layout)
  {
    if layout != [] {
      OffsetAll(layout[1..]);
    }
  }

  /** Field j of a run of equal fields inside a layout. */
  lemma PartOffset(layout: Layout, before: Layout, w: nat, n: nat, after: Layout, j: nat)
    requires j < |Run(w, n)| && layout == before + (Run(w, n) + after)
    ensures |before| + j < |layout|
    ensures Offset(layout, |before| + j) == Total(before) + j * w && layout[|before| + j] == w
  {
    OffsetRun(w, n, j);
    OffsetAll(before);
    OffsetAppend(before, Run(w, n) + after, |before| + j);
    OffsetAppend(Run(w, n), after, j);
  }

  lemma Regroup(a: Layout, b: Layout, c: Layout, d: Layout, e: Layout)
    ensures var s := a + b + c + d + e;
      && s == [] + (a + (b + c + d + e)) && s == a + (b + (c + d + e)) && s == a + b + (c + (d + e))
      && s == a + b + c + (d + e) && s == a + b + c + d + (e + [])
  {
  }

  lemma SummaryTotals()
    ensures Total(IDS) == 8 && Total(IDS + STAMPS) == 24 && Total(IDS + STAMPS + MEASURES) == 80
    ensures Total(IDS + STAMPS + MEASURES + FLAGS) == 84
    ensures |IDS| == 2 && |STAMPS| == 2 && |MEASURES| == 14 && |FLAGS| == 4 && |Run(4, 1)| == 1
  {
    TotalRun(4, 2);
    TotalRun(8, 2);
    TotalRun(4, 14);
    TotalRun(1, 4);
    TotalAppend(IDS, STAMPS);
    TotalAppend(IDS + STAMPS, MEASURES);
    TotalAppend(IDS + STAMPS + MEASURES, FLAGS);
    RunIs(4, 2);
    RunIs(8, 2);
    RunIs(4, 14);
    RunIs(1, 4);
    RunIs(4, 1);
  }

  ghost predicate FieldPlaced(j: nat) {
    Placed(SUMMARY, j, SummaryOffset(j), SummaryWidth(j))
  }

  lemma IdPlaced(j: nat)
    requires j < 2
    ensures FieldPlaced(j)
  {
    SummaryTotals();
    Regroup(IDS, STAMPS, MEASURES, FLAGS, Run(4, 1));
    PartOffset(SUMMARY, [], 4, 2, STAMPS + MEASURES + FLAGS + Run(4, 1), j);
  }

  lemma StampPlaced(j: nat)
    requires j < 2
    ensures FieldPlaced(2 + j)
  {
    SummaryTotals();
    Regroup(IDS, STAMPS, MEASURES, FLAGS, Run(4, 1));
    PartOffset(SUMMARY, IDS, 8, 2, MEASURES + FLAGS + Run(4, 1), j);
  }

  lemma MeasurePlaced(j: nat)
    requires j < 14
    ensures FieldPlaced(4 + j)
  {
    SummaryTotals();
    Regroup(IDS, STAMPS, MEASURES, FLAGS, Run(4, 1));
    PartOffset(SUMMARY, IDS + STAMPS, 4, 14, FLAGS + Run(4, 1), j);
  }

  lemma FlagPlaced(j: nat)
    requires j < 4
    ensures FieldPlaced(18 + j)
  {
    SummaryTotals();
    Regroup(IDS, STAMPS, MEASURES, FLAGS, Run(4, 1));
    PartOffset(SUMMARY, IDS + STAMPS + MEASURES, 1, 4, Run(4, 1), j);
  }

  lemma ReservedPlaced()
    ensures FieldPlaced(22)
  {
    SummaryTotals();
    Regroup(IDS, STAMPS, MEASURES, FLAGS, Run(4, 1));
    PartOffset(SUMMARY, IDS + STAMPS + MEASURES + FLAGS, 4, 1, [], 0);
  }

  lemma AllPlaced(j: nat)
    requires j < 23
    ensures FieldPlaced(j)
  {
    if j < 2 {
      IdPlaced(j);
    } else if j < 4 {
      StampPlaced(j - 2);
    } else if j < 18 {
      MeasurePlaced(j - 4);
    } else if j < 22 {
      FlagPlaced(j - 18);
    } else {
      ReservedPlaced();
    }
  }

  /** The fields of a record stand where the layout places them. */
  ghost predicate FieldsAt(bs: seq<Byte>, r: nat, f: seq<nat>, offset: nat -> nat, width: nat -> nat) {
    forall j: nat {:trigger offset(j)} :: j < |f| ==>
      r + 16 + offset(j) + width(j) <= |bs| && UintAt(bs, r + 16 + offset(j), width(j)) == f[j]
  }

  lemma AllFieldsStand(bs: seq<Byte>, r: nat, layout: Layout, rec: Rec, offset: nat -> nat, width: nat -> nat)
    requires RecFits(layout, rec) && Stands(bs, r, EncodeRec(layout, rec))
    requires forall j: nat :: j < |layout| ==> Placed(layout, j, offset(j), width(j))
    ensures FieldsAt(bs, r, rec.fields, offset, width)
  {
    forall j: nat | j < |rec.fields|
      ensures r + 16 + offset(j) + width(j) <= |bs| && UintAt(bs, r + 16 + offset(j), width(j)) == rec.fields[j]
    {
      FieldInsideAt(bs, r, layout, rec, j, offset(j), width(j));
    }
  }

  /** A track's summary at r, field by field. */
  ghost predicate SummaryStands(bs: seq<Byte>, r: nat, s: Snapshot, fl: Floats)
    requires r + 104 <= |bs|
  {
    && NameAt(bs, r, s.name) && UintAt(bs, r + 16, 4) == s.id && UintAt(bs, r + 20, 4) == s.seen
    && UintAt(bs, r + 24, 8) == s.firstSeen && UintAt(bs, r + 32, 8) == s.lastSeen
    && UintAt(bs, r + 40, 4) == DurationMs(s) && UintAt(bs, r + 44, 4) == fl.bits(Visibility(s))
    && IntAt(bs, r + 48) == s.last.cx && IntAt(bs, r + 52) == s.last.cy && BoxStands(bs, r + 56, s.last.box)
    && UintAt(bs, r + 72, 4) == fl.bits(s.vx) && UintAt(bs, r + 76, 4) == fl.bits(s.vy)
    && UintAt(bs, r + 80, 4) == fl.bits(fl.speed(s)) && UintAt(bs, r + 84, 4) == fl.bits(fl.heading(s))
    && UintAt(bs, r + 88, 4) == fl.bits(fl.accel(s)) && UintAt(bs, r + 92, 4) == fl.bits(s.loiter)
    && FlagsStand(bs, r + 96, s)
  }

  /** One byte each for the region flags, the status, and four zero bytes. */
  predicate FlagsStand(bs: seq<Byte>, off: nat, s: Snapshot)
    requires off + 8 <= |bs|
  {
    && UintAt(bs, off, 1) == (if s.inRoi then 1 else 0) && UintAt(bs, off + 1, 1) == (if s.entered then 1 else 0)
    && UintAt(bs, off + 2, 1) == (if s.exited then 1 else 0)
    && UintAt(bs, off + 3, 1) == (match StatusOf(s) case Tentative => 0 case Active => 1 case Lost => 2)
    && UintAt(bs, off + 4, 4) == 0
  }

  lemma SummaryHead(s: Snapshot, fl: Floats)
    requires SnapshotFits(s)
    ensures var f := SummaryRec(s, fl).fields;
      && f[0] == s.id && f[1] == s.seen && f[2] == s.firstSeen && f[3] == s.lastSeen
      && f[4..18] == Measures(s, fl)
  {
  }

  lemma MeasureValues(s: Snapshot, fl: Floats)
    requires SnapshotFits(s)
    ensures var f := Measures(s, fl);
      && f[0] == DurationMs(s) && f[1] == fl.bits(Visibility(s))
      && f[2] == ToUnsigned32(s.last.cx) && f[3] == ToUnsigned32(s.last.cy)
      && f[4] == ToUnsigned32(s.last.box.left) && f[5] == ToUnsigned32(s.last.box.top)
      && f[6] == ToUnsigned32(s.last.box.right) && f[7] == ToUnsigned32(s.last.box.bottom)
      && f[8] == fl.bits(s.vx) && f[9] == fl.bits(s.vy) && f[10] == fl.bits(fl.speed(s))
      && f[11] == fl.bits(fl.heading(s)) && f[12] == fl.bits(fl.accel(s)) && f[13] == fl.bits(s.loiter)
  {
  }

  lemma SummaryValues(s: Snapshot, fl: Floats)
    requires SnapshotFits(s)
    ensures var f := SummaryRec(s, fl).fields;
      && f[0] == s.id && f[1] == s.seen && f[2] == s.firstSeen && f[3] == s.lastSeen && f[4] == DurationMs(s)
      && f[5] == fl.bits(Visibility(s)) && f[6] == ToUnsigned32(s.last.cx) && f[7] == ToUnsigned32(s.last.cy)
      && f[8] == ToUnsigned32(s.last.box.left) && f[9] == ToUnsigned32(s.last.box.top)
      && f[10] == ToUnsigned32(s.last.box.right) && f[11] == ToUnsigned32(s.last.box.bottom)
      && f[12] == fl.bits(s.vx) && f[13] == fl.bits(s.vy) && f[14] == fl.bits(fl.speed(s))
      && f[15] == fl.bits(fl.heading(s)) && f[16] == fl.bits(fl.accel(s)) && f[17] == fl.bits(s.loiter)
  {
    SummaryHead(s, fl);
    MeasureValues(s, fl);
    var f := SummaryRec(s, fl).fields;
    assert forall k :: 0 <= k < 14 ==> f[4 + k] == f[4..18][k];
  }

  lemma SummaryFlags(s: Snapshot, fl: Floats)
    requires SnapshotFits(s)
    ensures var f := SummaryRec(s, fl).fields;
      && f[18] == (if s.inRoi then 1 else 0) && f[19] == (if s.entered then 1 else 0)
      && f[20] == (if s.exited then 1 else 0)
      && f[21] == (match StatusOf(s) case Tentative => 0 case Active => 1 case Lost => 2) && f[22] == 0
  {
  }

  /** The 23 fields stand where the record puts them. */
  ghost predicate FieldsStand(bs: seq<Byte>, r: nat, f: seq<nat>)
    requires |f| == 23 && r + 104 <= |bs|
  {
    forall j: nat {:trigger SummaryOffset(j)} :: j < 23 ==>
      r + 16 + SummaryOffset(j) + SummaryWidth(j) <= |bs| &&
      UintAt(bs, r + 16 + SummaryOffset(j), SummaryWidth(j)) == f[j]
  }

  lemma SameFields(bs: seq<Byte>, r: nat, f: seq<nat>)
    requires |f| == 23 && r + 104 <= |bs| && FieldsAt(bs, r, f, SummaryOffset, SummaryWidth)
    ensures FieldsStand(bs, r, f)
  {
    forall j: nat | j < 23
      ensures r + 16 + SummaryOffset(j) + SummaryWidth(j) <= |bs|
           && UintAt(bs, r + 16 + SummaryOffset(j), SummaryWidth(j)) == f[j]
    {
      var offset: nat -> nat := SummaryOffset;
      assert offset(j) == SummaryOffset(j);
    }
  }

  lemma SummaryFieldsStand(bs: seq<Byte>, r: nat, rec: Rec)
    requires RecFits(SUMMARY, rec) && |rec.fields| == 23 && Stands(bs, r, EncodeRec(SUMMARY, rec))
    ensures r + 104 <= |bs| && FieldsStand(bs, r, rec.fields) && NameAt(bs, r, rec.name)
  {
    RecordSizes();
    NameInside(bs, r, SUMMARY, rec);
    SummaryPlaced();
    AllFieldsStand(bs, r, SUMMARY, rec, SummaryOffset, SummaryWidth);
    SameFields(bs, r, rec.fields);
  }

  lemma SummaryPlaced()
    ensures |SUMMARY| == 23 && forall j: nat :: j < |SUMMARY| ==> Placed(SUMMARY, j, SummaryOffset(j), SummaryWidth(j))
  {
    SummaryTotals();
    forall j: nat | j < 23
      ensures Placed(SUMMARY, j, SummaryOffset(j), SummaryWidth(j))
    {
      AllPlaced(j);
    }
  }

  lemma MeasuresStand(bs: seq<Byte>, r: nat, s: Snapshot, f: seq<nat>)
    requires SnapshotFits(s) && |f| == 23 && r + 104 <= |bs| && FieldsStand(bs, r, f)
    requires f[6] == ToUnsigned32(s.last.cx) && f[7] == ToUnsigned32(s.last.cy)
    requires f[8] == ToUnsigned32(s.last.box.left) && f[9] == ToUnsigned32(s.last.box.top)
    requires f[10] == ToUnsigned32(s.last.box.right) && f[11] == ToUnsigned32(s.last.box.bottom)
    ensures IntAt(bs, r + 48) == s.last.cx && IntAt(bs, r + 52) == s.last.cy && BoxStands(bs, r + 56, s.last.box)
  {
    assert SummaryOffset(6) == 32 && SummaryOffset(7) == 36 && SummaryOffset(8) == 40;
    assert SummaryOffset(9) == 44 && SummaryOffset(10) == 48 && SummaryOffset(11) == 52;
    IntStands(bs, r + 48, s.last.cx);
    IntStands(bs, r + 52, s.last.cy);
    IntStands(bs, r + 56, s.last.box.left);
    IntStands(bs, r + 60, s.last.box.top);
    IntStands(bs, r + 64, s.last.box.right);
    IntStands(bs, r + 68, s.last.box.bottom);
  }

  lemma WordsStand(bs: seq<Byte>, r: nat, f: seq<nat>)
    requires |f| == 23 && r + 104 <= |bs| && FieldsStand(bs, r, f)
    ensures UintAt(bs, r + 16, 4) == f[0] && UintAt(bs, r + 20, 4) == f[1]
    ensures UintAt(bs, r + 24, 8) == f[2] && UintAt(bs, r + 32, 8) == f[3]
    ensures UintAt(bs, r + 40, 4) == f[4] && UintAt(bs, r + 44, 4) == f[5]
    ensures UintAt(bs, r + 72, 4) == f[12] && UintAt(bs, r + 76, 4) == f[13] && UintAt(bs, r + 80, 4) == f[14]
    ensures UintAt(bs, r + 84, 4) == f[15] && UintAt(bs, r + 88, 4) == f[16] && UintAt(bs, r + 92, 4) == f[17]
  {
    assert SummaryOffset(0) == 0 && SummaryOffset(1) == 4 && SummaryOffset(2) == 8 && SummaryOffset(3) == 16;
    assert SummaryOffset(4) == 24 && SummaryOffset(5) == 28 && SummaryOffset(12) == 56 && SummaryOffset(13) == 60;
    assert SummaryOffset(14) == 64 && SummaryOffset(15) == 68 && SummaryOffset(16) == 72 && SummaryOffset(17) == 76;
  }

  lemma BytesStand(bs: seq<Byte>, r: nat, f: seq<nat>)
    requires |f| == 23 && r + 104 <= |bs| && FieldsStand(bs, r, f)
    ensures UintAt(bs, r + 96, 1) == f[18] && UintAt(bs, r + 97, 1) == f[19] && UintAt(bs, r + 98, 1) == f[20]
    ensures UintAt(bs, r + 99, 1) == f[21] && UintAt(bs, r + 100, 4) == f[22]
  {
    assert SummaryOffset(18) == 80 && SummaryOffset(19) == 81 && SummaryOffset(20) == 82;
    assert SummaryOffset(21) == 83 && SummaryOffset(22) == 84;
  }

  /** Wherever a summary record stands, its fields stand at these offsets in it. */
  lemma SummaryRecStands(bs: seq<Byte>, r: nat, s: Snapshot, fl: Floats)
    requires SnapshotFits(s) && FloatsFit(fl) && Stands(bs, r, EncodeRec(SUMMARY, SummaryRec(s, fl)))
    ensures r + 104 <= |bs| && SummaryStands(bs, r, s, fl)
  {
    var rec := SummaryRec(s, fl);
    SummaryFits(s, fl);
    SummaryFieldsStand(bs, r, rec);
    SummaryValues(s, fl);
    SummaryFlags(s, fl);
    MeasuresStand(bs, r, s, rec.fields);
    WordsStand(bs, r, rec.fields);
    BytesStand(bs, r, rec.fields);
  }
}
