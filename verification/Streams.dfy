/** Byte streams that accept and return arbitrary short counts, and the exact
    read and write loops on top of them. */
module Streams {
  import opened Wire

  /** The reading end of a connection: what is still to come before end of file,
      and how many bytes each read() happens to return. */
  class Source {
    var data: seq<Byte>
    var schedule: seq<nat>

    constructor (data: seq<Byte>, schedule: seq<nat>)
      ensures this.data == data
    {
      this.data, this.schedule := data, schedule;
    }

    /** read(fd, p, n): at least one byte unless the stream has ended. */
    method Read(n: nat) returns (chunk: seq<Byte>)
      requires 0 < n
      modifies this
      ensures old(data) == chunk + data && |chunk| <= n
      ensures chunk == [] <==> old(data) == []
    {
      var k := if schedule == [] || schedule[0] == 0 then 1 else schedule[0];
      schedule := if schedule == [] then [] else schedule[1..];
      k := if k > n then n else k;
      k := if k > |data| then |data| else k;
      chunk, data := data[..k], data[k..];
    }

    /** readExact: all n bytes, or false with the stream used up. */
    method ReadExact(n: nat) returns (ok: bool, buf: seq<Byte>)
      modifies this
      ensures ok <==> |old(data)| >= n
      ensures ok ==> buf == old(data)[..n] && data == old(data)[n..]
      ensures !ok ==> data == [] && buf == old(data)
    {
      buf := [];
      while |buf| < n
        invariant |buf| <= n && old(data) == buf + data
        decreases n - |buf|
      {
        var r := Read(n - |buf|);
        if r == [] {
          return false, buf;
        }
        buf := buf + r;
      }
      ok := true;
    }
  }

  /** The writing end: what the peer will receive, how many bytes each send()
      happens to take, and whether the peer has gone. */
  class Sink {
    var sent: seq<Byte>
    var schedule: seq<int>

    constructor (schedule: seq<int>)
      ensures sent == []
    {
      this.sent, this.schedule := [], schedule;
    }

    /** send(fd, p, n): some bytes from the front, or an error (w <= 0). */
    method Send(p: seq<Byte>) returns (w: int)
      requires p != []
      modifies this
      ensures w <= |p|
      ensures sent == old(sent) + if w <= 0 then [] else p[..w]
    {
      w := if schedule == [] then |p| else schedule[0];
      schedule := if schedule == [] then [] else schedule[1..];
      w := if w > |p| then |p| else w;
      if w > 0 {
        sent := sent + p[..w];
      }
    }

    /** writeExact: everything, or false with only a proper prefix gone out. */
    method WriteExact(p: seq<Byte>) returns (ok: bool)
      modifies this
      ensures ok ==> sent == old(sent) + p
      ensures !ok ==> old(sent) <= sent < old(sent) + p
    {
      var done := 0;
      while done < |p|
        invariant 0 <= done <= |p| && sent == old(sent) + p[..done]
      {
        var w := Send(p[done..]);
        if w <= 0 {
          return false;
        }
        assert p[..done] + p[done..][..w] == p[..done + w];
        done := done + w;
      }
      assert p[..done] == p;
      ok := true;
    }
  }

  /** The records of a frame, one writeExact each. */
  method SendBody(sink: Sink, layout: Layout, recs: seq<Rec>) returns (ok: bool)
    requires RecsFit(layout, recs)
    modifies sink
    ensures ok ==> sink.sent == old(sink.sent) + EncodeBody(layout, recs)
    ensures !ok ==> old(sink.sent) <= sink.sent < old(sink.sent) + EncodeBody(layout, recs)
  {
    ghost var start := sink.sent;
    assert recs[0..] == recs;
    for i := 0 to |recs|
      invariant start <= sink.sent
      invariant sink.sent + EncodeBody(layout, recs[i..]) == start + EncodeBody(layout, recs)
    {
      assert recs[i..][1..] == recs[i + 1..];
      ghost var sofar := sink.sent;
      ok := sink.WriteExact(EncodeRec(layout, recs[i]));
      if !ok {
        LongerPrefix(sink.sent, sofar + EncodeRec(layout, recs[i]), EncodeBody(layout, recs[i + 1..]));
        return;
      }
    }
    ok := true;
  }

  lemma LongerPrefix(a: seq<Byte>, b: seq<Byte>, c: seq<Byte>)
    requires a < b
    ensures a < b + c
  {
  }

  /** sendFrame, send_tracks and publish_frame: length prefix, header, records.
      On an error the peer has received a proper prefix of the frame. */
  method SendFrame(sink: Sink, layout: Layout, f: Frame) returns (ok: bool)
    requires FrameFits(layout, f)
    modifies sink
    ensures ok ==> sink.sent == old(sink.sent) + EncodeFrame(layout, f)
    ensures !ok ==> old(sink.sent) <= sink.sent < old(sink.sent) + EncodeFrame(layout, f)
  {
    ghost var start := sink.sent;
    var size := LittleEndian(24 + |f.recs| * RecordSize(layout), 4);
    var hdr := EncodeHeader(f.id, f.timestamp, |f.recs|);
    ghost var body := EncodeBody(layout, f.recs);
    assert start + EncodeFrame(layout, f) == start + size + hdr + body;
    ok := sink.WriteExact(size);
    if !ok {
      LongerPrefix(sink.sent, start + size, hdr + body);
      assert start + size + (hdr + body) == start + size + hdr + body;
      return;
    }
    ok := sink.WriteExact(hdr);
    if !ok {
      LongerPrefix(sink.sent, start + size + hdr, body);
      return;
    }
    ok := SendBody(sink, layout, f.recs);
  }

  /** The record loop of a reader: whole records until `count` or the stream ends. */
  method ReadRecords(src: Source, layout: Layout, count: nat) returns (recs: seq<Rec>)
    modifies src
    ensures recs == DecodeBody(layout, count, old(src.data))
    ensures |recs| == count <==> |old(src.data)| >= count * RecordSize(layout)
    ensures |recs| == count ==> src.data == old(src.data)[count * RecordSize(layout)..]
    ensures |recs| < count ==> src.data == []
  {
    ghost var all := src.data;
    var size := RecordSize(layout);
    recs := [];
    for i := 0 to count
      invariant |recs| == i && i * size <= |all| && src.data == all[i * size..]
      invariant recs + DecodeBody(layout, count - i, src.data) == DecodeBody(layout, count, all)
    {
      ghost var before := src.data;
      SizeStep(i, count, size);
      var ok, buf := src.ReadExact(size);
      if !ok {
        assert DecodeBody(layout, count - i, before) == [];
        return;
      }
      recs := recs + [DecodeRec(layout, buf)];
      assert (i + 1) * size == i * size + size;
    }
  }

  lemma SizeStep(i: nat, count: nat, size: nat)
    requires i < count
    ensures (i + 1) * size == i * size + size && i * size + size <= count * size
  {
    assert (i + 1) * size <= count * size;
  }

  /** Length prefix and header of the next frame, with the checks made on them. */
  method ReadHeader(src: Source, layout: Layout, reader: Reader) returns (ok: bool, hdr: Header)
    modifies src
    ensures ok <==> HeaderOk(layout, reader, old(src.data))
    ensures ok ==> hdr == DecodeHeader(old(src.data)[4..28]) && src.data == old(src.data)[28..]
  {
    ghost var bs := src.data;
    hdr := Header(0, 0, 0);
    var prefix, raw;
    ok, prefix := src.ReadExact(4);
    if !ok {
      return;
    }
    var bodyLen := FromLittle(prefix);
    if bodyLen < 24 {
      return false, hdr;
    }
    ok, raw := src.ReadExact(24);
    if !ok {
      return;
    }
    assert raw == bs[4..28] && src.data == bs[28..];
    hdr := DecodeHeader(raw);
    if !reader.SummarizerReader? && bodyLen != 24 + hdr.count * RecordSize(layout) {
      ok := false;
    }
  }

  /** One round of the frame loop: a header and its records.  When the stream
      ends among the records, the next read fails, so the connection is done. */
  method ReadFrame(src: Source, layout: Layout, reader: Reader) returns (more: bool, frames: seq<Frame>)
    modifies src
    ensures more ==> |src.data| < |old(src.data)|
    ensures Deliver(layout, reader, old(src.data)) == frames + if more then Deliver(layout, reader, src.data) else []
  {
    ghost var bs := src.data;
    var ok, hdr := ReadHeader(src, layout, reader);
    if !ok {
      return false, [];
    }
    var recs := ReadRecords(src, layout, hdr.count);
    more := |recs| == hdr.count;
    if more {
      assert bs[28..][hdr.count * RecordSize(layout)..] == bs[28 + hdr.count * RecordSize(layout)..];
      frames := [Frame(hdr.id, hdr.timestamp, recs)];
    } else {
      match reader {
        case TrackerReader =>
          frames := [Frame(hdr.id, hdr.timestamp, recs + Blanks(layout, hdr.count - |recs|))];
        case TemporalReader =>
          frames := [Frame(hdr.id, hdr.timestamp, recs)];
        case SummarizerReader =>
          frames := [];
      }
    }
  }

  /** The frame loop of one connection: it processes exactly the frames that
      Deliver names and leaves when a read fails or a length does not match. */
  method ServeConnection(src: Source, layout: Layout, reader: Reader) returns (frames: seq<Frame>)
    modifies src
    ensures frames == Deliver(layout, reader, old(src.data))
  {
    frames := [];
    var more := true;
    while more
      invariant frames + (if more then Deliver(layout, reader, src.data) else []) ==
          Deliver(layout, reader, old(src.data))
      decreases more, |src.data|
    {
      var next;
      more, next := ReadFrame(src, layout, reader);
      frames := frames + next;
    }
  }
}
