/** The summarizer's rolling aggregate: one AggTrack per track id. */
module Aggregate {
  import opened Tracker
  import opened TrackStates

  /** The fields of a published track summary that the summarizer reads. */
  datatype Summary = Summary(name: Name, id: nat, seen: nat, firstSeen: nat, lastSeen: nat, duration: nat,
                             cx: int, cy: int, speed: real, loiter: real,
                             inRoi: bool, entered: bool, exited: bool, status: Status)

  datatype AggTrack = AggTrack(name: Name, id: nat, seen: nat, firstSeen: nat, lastSeen: nat, duration: nat,
                               firstCx: int, firstCy: int, lastCx: int, lastCy: int,
                               maxSpeed: real, minLoiter: real, maxLoiter: real,
                               everInRoi: bool, entered: bool, exited: bool, firstSet: bool, lastStatus: Status)

  type Agg = map<nat, AggTrack>

  const BLANK := AggTrack([], 0, 0, 0, 0, 0, 0, 0, 0, 0, 0.0, 1.0, 0.0, false, false, false, false, Tentative)

  /** One record taken into its track's aggregate. */
  function Absorbed(a: AggTrack, s: Summary): AggTrack {
    AggTrack(s.name, s.id, Max(a.seen, s.seen),
             if a.firstSet then a.firstSeen else s.firstSeen, s.lastSeen, Max(a.duration, s.duration),
             if a.firstSet then a.firstCx else s.cx, if a.firstSet then a.firstCy else s.cy, s.cx, s.cy,
             if s.speed > a.maxSpeed then s.speed else a.maxSpeed,
             if s.loiter < a.minLoiter then s.loiter else a.minLoiter,
             if s.loiter > a.maxLoiter then s.loiter else a.maxLoiter,
             a.everInRoi || s.inRoi, a.entered || s.entered, a.exited || s.exited, true, s.status)
  }

  function Take(agg: Agg, s: Summary): Agg {
    agg[s.id := Absorbed(if s.id in agg then agg[s.id] else BLANK, s)]
  }

  function TakeAll(agg: Agg, recs: seq<Summary>): Agg {
    if recs == [] then agg else Take(TakeAll(agg, recs[..|recs| - 1]), recs[|recs| - 1])
  }

  lemma {:induction false} TakeAppend(agg: Agg, recs: seq<Summary>, more: seq<Summary>)
    ensures TakeAll(TakeAll(agg, recs), more) == TakeAll(agg, recs + more)
  {
    if more == [] {
      assert recs + more == recs;
    } else {
      TakeAppend(agg, recs, more[..|more| - 1]);
      assert (recs + more)[..|recs + more| - 1] == recs + more[..|more| - 1];
    }
  }

  // ---- what the aggregate means ----

  /** The records of one track, in order. */
  function Of(id: nat, recs: seq<Summary>): (r: seq<Summary>)
    ensures forall s :: s in r <==> s in recs && s.id == id
  {
    if recs == [] then []
    else
      var before := Of(id, recs[..|recs| - 1]);
      if recs[|recs| - 1].id == id then before + [recs[|recs| - 1]] else before
  }


  ghost predicate Counted(a: AggTrack, recs: seq<Summary>)
    requires recs != []
  {
    && (forall s :: s in recs ==> s.seen <= a.seen && s.duration <= a.duration)
    && (exists s :: s in recs && s.seen == a.seen)
    && (exists s :: s in recs && s.duration == a.duration)
  }

  ghost predicate Ranged(a: AggTrack, recs: seq<Summary>)
    requires recs != []
  {
    && (forall s :: s in recs ==> s.speed <= a.maxSpeed && a.minLoiter <= s.loiter <= a.maxLoiter)
    && (a.maxSpeed == 0.0 || exists s :: s in recs && s.speed == a.maxSpeed)
    && (a.minLoiter == 1.0 || exists s :: s in recs && s.loiter == a.minLoiter)
    && (a.maxLoiter == 0.0 || exists s :: s in recs && s.loiter == a.maxLoiter)
  }

  ghost predicate Flagged(a: AggTrack, recs: seq<Summary>)
    requires recs != []
  {
    && (a.everInRoi <==> exists s :: s in recs && s.inRoi)
    && (a.entered <==> exists s :: s in recs && s.entered)
    && (a.exited <==> exists s :: s in recs && s.exited)
  }

  ghost predicate EndsKept(a: AggTrack, recs: seq<Summary>)
    requires recs != []
  {
    var first, last := recs[0], recs[|recs| - 1];
    && a.firstSet && a.firstSeen == first.firstSeen && a.firstCx == first.cx && a.firstCy == first.cy
    && a.lastSeen == last.lastSeen && a.lastCx == last.cx && a.lastCy == last.cy
    && a.name == last.name && a.id == last.id && a.lastStatus == last.status
  }

  /** The aggregate of a track's records: maxima, first and last positions, and
      the region flags or-ed together. */
  ghost predicate Summarises(a: AggTrack, recs: seq<Summary>) {
    recs != [] && EndsKept(a, recs) && Counted(a, recs) && Ranged(a, recs) && Flagged(a, recs)
  }

  lemma FirstSummarised(s: Summary)
    ensures Summarises(Absorbed(BLANK, s), [s])
  {
    var a := Absorbed(BLANK, s);
    assert s in [s];
  }

  lemma NextCounted(a: AggTrack, recs: seq<Summary>, s: Summary)
    requires recs != [] && Counted(a, recs)
    ensures Counted(Absorbed(a, s), recs + [s])
  {
    var all := recs + [s];
    var x :| x in recs && x.seen == a.seen;
    var y :| y in recs && y.duration == a.duration;
    assert x in all && y in all && s in all;
  }

  lemma NextRanged(a: AggTrack, recs: seq<Summary>, s: Summary)
    requires recs != [] && Ranged(a, recs)
    ensures Ranged(Absorbed(a, s), recs + [s])
  {
    var all := recs + [s];
    assert s in all && forall x :: x in recs ==> x in all;
  }

  lemma NextFlagged(a: AggTrack, recs: seq<Summary>, s: Summary)
    requires recs != [] && Flagged(a, recs)
    ensures Flagged(Absorbed(a, s), recs + [s])
  {
    var all := recs + [s];
    assert s in all && forall x :: x in recs ==> x in all;
  }

  lemma NextSummarised(a: AggTrack, recs: seq<Summary>, s: Summary)
    requires Summarises(a, recs) && a.id == s.id
    ensures Summarises(Absorbed(a, s), recs + [s])
  {
    NextCounted(a, recs, s);
    NextRanged(a, recs, s);
    NextFlagged(a, recs, s);
  }

  ghost predicate Entry(agg: Agg, recs: seq<Summary>, id: nat) {
    && (id in agg <==> Of(id, recs) != [])
    && (id in agg ==> agg[id].id == id && Summarises(agg[id], Of(id, recs)))
  }

  lemma OfAppend(id: nat, recs: seq<Summary>, s: Summary)
    ensures Of(id, recs + [s]) == if s.id == id then Of(id, recs) + [s] else Of(id, recs)
  {
    assert (recs + [s])[..|recs + [s]| - 1] == recs;
  }

  lemma TakeEntry(agg: Agg, recs: seq<Summary>, s: Summary, id: nat)
    requires Entry(agg, recs, id)
    ensures Entry(Take(agg, s), recs + [s], id)
  {
    OfAppend(id, recs, s);
    if id == s.id {
      if id in agg {
        NextSummarised(agg[id], Of(id, recs), s);
      } else {
        FirstSummarised(s);
        assert Of(id, recs) + [s] == [s];
      }
    }
  }

  /** The aggregate has exactly the records' ids, and each entry is the fold of
      that id's records. */
  ghost predicate IsFold(agg: Agg, recs: seq<Summary>) {
    forall id: nat :: Entry(agg, recs, id)
  }

  /** Whatever the records, taking them one by one gives their fold. */
  lemma {:induction false} AggregateIsFold(recs: seq<Summary>)
    ensures IsFold(TakeAll(map[], recs), recs)
  {
    if recs != [] {
      var before := recs[..|recs| - 1];
      AggregateIsFold(before);
      assert recs == before + [recs[|recs| - 1]];
      forall id
        ensures Entry(TakeAll(map[], recs), recs, id)
      {
        TakeEntry(TakeAll(map[], before), before, recs[|recs| - 1], id);
      }
    }
  }
}
