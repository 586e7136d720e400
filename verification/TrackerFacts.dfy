/** What one frame does to the tracker's live tracks, and how many there can be. */
module TrackerFacts {
  import opened Cells
  import opened GreedyMatching
  import opened Tracker

  ghost predicate Distinct(tracks: seq<Track>) {
    forall i, j :: 0 <= i < j < |tracks| ==> tracks[i].id != tracks[j].id
  }

  /** Ids are distinct, were given out by next_id_, and 0 stays reserved. */
  ghost predicate Sound(s: TrackerState) {
    && Distinct(s.tracks) && s.nextId >= 1
    && forall t :: t in s.tracks ==> 1 <= t.id < s.nextId && t.unseen <= MAX_AGE
  }

  /** The live tracks by id. */
  ghost function Live(tracks: seq<Track>): (m: map<nat, Track>)
    requires Distinct(tracks)
    ensures forall t :: t in tracks ==> t.id in m && m[t.id] == t
    ensures forall id :: id in m ==> m[id] in tracks && m[id].id == id
  {
    map i | 0 <= i < |tracks| :: tracks[i].id := tracks[i]
  }

  ghost function OutIds(outs: seq<Output>): set<nat> {
    set o | o in outs :: o.id
  }

  // ---- the first loop ----

  /** How many of the first n detections start a new track. */
  function NewBefore(toTrack: seq<int>, n: nat): (r: nat)
    requires n <= |toTrack|
    ensures r <= n
  {
    if n == 0 then 0 else NewBefore(toTrack, n - 1) + if toTrack[n - 1] < 0 then 1 else 0
  }

  lemma {:induction false} NewBeforeGrows(toTrack: seq<int>, d: nat, n: nat)
    requires d < n <= |toTrack|
    ensures NewBefore(toTrack, d) <= NewBefore(toTrack, n)
    ensures toTrack[d] < 0 ==> NewBefore(toTrack, d) < NewBefore(toTrack, n)
  {
    if d < n - 1 {
      NewBeforeGrows(toTrack, d, n - 1);
    }
  }

  /** The k-th new track belongs to some detection. */
  lemma {:induction false} NewBeforeHits(toTrack: seq<int>, n: nat, k: nat) returns (d: nat)
    requires n <= |toTrack| && k < NewBefore(toTrack, n)
    ensures d < n && toTrack[d] < 0 && NewBefore(toTrack, d) == k
  {
    if toTrack[n - 1] < 0 && NewBefore(toTrack, n - 1) == k {
      d := n - 1;
    } else {
      d := NewBeforeHits(toTrack, n - 1, k);
    }
  }

  predicate Targets(T: seq<Track>, toTrack: seq<int>) {
    forall d :: 0 <= d < |toTrack| ==> -1 <= toTrack[d] < |T|
  }

  /** The place of detection d's track in the list, and its id. */
  function Slot(s: TrackerState, toTrack: seq<int>, d: nat): nat
    requires d < |toTrack| && Targets(s.tracks, toTrack)
  {
    if toTrack[d] >= 0 then toTrack[d] else |s.tracks| + NewBefore(toTrack, d)
  }

  function OutId(s: TrackerState, toTrack: seq<int>, d: nat): nat
    requires d < |toTrack| && Targets(s.tracks, toTrack)
  {
    if toTrack[d] >= 0 then s.tracks[toTrack[d]].id else s.nextId + NewBefore(toTrack, d)
  }

  ghost predicate Reached(toTrack: seq<int>, n: nat, t: int)
    requires n <= |toTrack|
  {
    exists d :: 0 <= d < n && toTrack[d] == t
  }

  /** The state after n detections: matched tracks refreshed in place, new ones
      appended and numbered from next_id_ on, all others untouched. */
  ghost predicate Absorbed(s: TrackerState, dets: seq<Det>, toTrack: seq<int>, frame: nat, n: nat, p: Progress)
    requires n <= |dets| == |toTrack| && Targets(s.tracks, toTrack)
  {
    && p.nextId == s.nextId + NewBefore(toTrack, n)
    && |p.tracks| == |s.tracks| + NewBefore(toTrack, n)
    && |p.outputs| == n
    && (forall d :: 0 <= d < n ==> p.outputs[d] == Output(dets[d], OutId(s, toTrack, d)))
    && (forall d :: 0 <= d < n ==>
          && Slot(s, toTrack, d) < |p.tracks|
          && p.tracks[Slot(s, toTrack, d)] == Track(OutId(s, toTrack, d), dets[d], 0, frame))
    && (forall t :: 0 <= t < |s.tracks| && !Reached(toTrack, n, t) ==> p.tracks[t] == s.tracks[t])
  }

  lemma ReachedStep(toTrack: seq<int>, n: nat, t: int)
    requires n < |toTrack|
    ensures Reached(toTrack, n + 1, t) == (Reached(toTrack, n, t) || toTrack[n] == t)
  {
    if Reached(toTrack, n, t) {
      var d :| 0 <= d < n && toTrack[d] == t;
      assert toTrack[d] == t && d < n + 1;
    }
  }

  lemma AbsorbOld(s: TrackerState, dets: seq<Det>, toTrack: seq<int>, frame: nat, n: nat, p: Progress)
    requires n < |dets| == |toTrack| && Targets(s.tracks, toTrack) && Absorbed(s, dets, toTrack, frame, n, p)
    requires toTrack[n] >= 0 && forall d :: 0 <= d < n ==> toTrack[d] != toTrack[n]
    ensures var t := toTrack[n];
      Absorbed(s, dets, toTrack, frame, n + 1,
        Progress(p.tracks[t := Refreshed(p.tracks[t], dets[n], frame)], p.nextId,
                 p.outputs + [Output(dets[n], p.tracks[t].id)]))
  {
    assert !Reached(toTrack, n, toTrack[n]);
    forall t | 0 <= t < |s.tracks|
      ensures Reached(toTrack, n + 1, t) == (Reached(toTrack, n, t) || toTrack[n] == t)
    {
      ReachedStep(toTrack, n, t);
    }
  }

  lemma AbsorbNew(s: TrackerState, dets: seq<Det>, toTrack: seq<int>, frame: nat, n: nat, p: Progress)
    requires n < |dets| == |toTrack| && Targets(s.tracks, toTrack) && Absorbed(s, dets, toTrack, frame, n, p)
    requires toTrack[n] < 0
    ensures Absorbed(s, dets, toTrack, frame, n + 1,
              Progress(p.tracks + [Track(p.nextId, dets[n], 0, frame)], p.nextId + 1,
                       p.outputs + [Output(dets[n], p.nextId)]))
  {
    forall t | 0 <= t < |s.tracks|
      ensures Reached(toTrack, n + 1, t) == Reached(toTrack, n, t)
    {
      ReachedStep(toTrack, n, t);
    }
  }

  lemma {:induction false} AbsorbDoes(s: TrackerState, dets: seq<Det>, toTrack: seq<int>, used: seq<bool>,
                                      frame: nat, n: nat)
    requires Consistent(Matching(toTrack, used), |dets|, |s.tracks|) && n <= |dets|
    ensures Absorbed(s, dets, toTrack, frame, n, Absorb(s, dets, toTrack, frame, n))
  {
    if n > 0 {
      AbsorbDoes(s, dets, toTrack, used, frame, n - 1);
      var p := Absorb(s, dets, toTrack, frame, n - 1);
      if toTrack[n - 1] >= 0 {
        AbsorbOld(s, dets, toTrack, frame, n - 1, p);
      } else {
        AbsorbNew(s, dets, toTrack, frame, n - 1, p);
      }
    }
  }

  // ---- the whole frame ----

  /** Live tracks `L` became `L'` when the outputs `outs` were reported: what was
      reported is live and fresh; what was not has aged by one, or is gone. */
  ghost predicate Moved(L: map<nat, Track>, frame: nat, outs: seq<Output>, L': map<nat, Track>) {
    && (forall o :: o in outs ==> o.id in L' && L'[o.id] == Track(o.id, o.det, 0, frame))
    && (forall id :: id in L' && id !in OutIds(outs) ==>
          id in L && L[id].unseen < MAX_AGE && L'[id] == L[id].(unseen := L[id].unseen + 1))
    && (forall id :: id in L && id !in OutIds(outs) && L[id].unseen < MAX_AGE ==> id in L')
  }

  /** Each detection is reported once, in order, under an id of its own: that of
      a live track of its class, or one never used before. */
  ghost predicate Reported(s: TrackerState, dets: seq<Det>, outs: seq<Output>, nextId: nat)
    requires Distinct(s.tracks)
  {
    && |outs| == |dets| && nextId >= s.nextId
    && (forall d :: 0 <= d < |outs| ==> outs[d].det == dets[d])
    && (forall d, e :: 0 <= d < e < |outs| ==> outs[d].id != outs[e].id)
    && (forall o :: o in outs ==> Origin(s, o, nextId))
  }

  ghost predicate Origin(s: TrackerState, o: Output, nextId: nat)
    requires Distinct(s.tracks)
  {
    || (o.id in Live(s.tracks) && Live(s.tracks)[o.id].det.name == o.det.name)
    || s.nextId <= o.id < nextId
  }

  lemma SlotsDiffer(s: TrackerState, m: Matching, d: nat, e: nat)
    requires Sound(s) && d < e < |m.toTrack| && Consistent(m, |m.toTrack|, |s.tracks|)
    ensures OutId(s, m.toTrack, d) != OutId(s, m.toTrack, e)
  {
    NewBeforeGrows(m.toTrack, d, e);
    if m.toTrack[d] >= 0 {
      assert s.tracks[m.toTrack[d]] in s.tracks;
    }
    if m.toTrack[e] >= 0 {
      assert s.tracks[m.toTrack[e]] in s.tracks;
    }
  }

  lemma ReportedOnce(s: TrackerState, dets: seq<Det>, frame: nat, m: Matching, p: Progress)
    requires Sound(s) && Consistent(m, |dets|, |s.tracks|)
    requires forall d :: 0 <= d < |dets| && m.toTrack[d] >= 0 ==> dets[d].name == s.tracks[m.toTrack[d]].det.name
    requires Absorbed(s, dets, m.toTrack, frame, |dets|, p)
    ensures Reported(s, dets, p.outputs, p.nextId)
  {
    forall d, e | 0 <= d < e < |dets|
      ensures p.outputs[d].id != p.outputs[e].id
    {
      SlotsDiffer(s, m, d, e);
    }
    forall d | 0 <= d < |dets|
      ensures Origin(s, p.outputs[d], p.nextId)
    {
      NewBeforeGrows(m.toTrack, d, |dets|);
      if m.toTrack[d] >= 0 {
        assert s.tracks[m.toTrack[d]] in s.tracks;
      }
    }
  }

  /** What the aged list holds: unmatched old tracks one older, everything else
      reported this frame and fresh. */
  ghost predicate Layout(T: seq<Track>, used: seq<bool>, frame: nat, outs: seq<Output>, a: seq<Track>) {
    && |T| == |used| <= |a|
    && (forall t :: 0 <= t < |T| && !used[t] ==> a[t] == T[t].(unseen := T[t].unseen + 1))
    && (forall k :: 0 <= k < |a| && (k < |T| ==> used[k]) ==> a[k].id in OutIds(outs))
    && (forall o :: o in outs ==> Track(o.id, o.det, 0, frame) in a)
    && (forall t :: 0 <= t < |T| && !used[t] ==> T[t].id !in OutIds(outs))
  }

  lemma {:induction false} OldSlot(s: TrackerState, dets: seq<Det>, frame: nat, m: Matching, p: Progress, t: nat)
    requires Sound(s) && Consistent(m, |dets|, |s.tracks|) && Absorbed(s, dets, m.toTrack, frame, |dets|, p)
    requires t < |s.tracks| && !m.used[t]
    ensures p.tracks[t] == s.tracks[t] && s.tracks[t].id !in OutIds(p.outputs)
  {
    assert !Reached(m.toTrack, |dets|, t);
    assert s.tracks[t] in s.tracks;
    forall d | 0 <= d < |dets|
      ensures p.outputs[d].id != s.tracks[t].id
    {
      assert m.toTrack[d] != t;
    }
  }

  lemma OtherSlot(s: TrackerState, dets: seq<Det>, frame: nat, m: Matching, p: Progress, k: nat)
    requires Sound(s) && Consistent(m, |dets|, |s.tracks|) && Absorbed(s, dets, m.toTrack, frame, |dets|, p)
    requires k < |p.tracks| && (k < |s.tracks| ==> m.used[k])
    ensures p.tracks[k].id in OutIds(p.outputs)
    ensures p.tracks[k].id == if k < |s.tracks| then s.tracks[k].id else s.nextId + (k - |s.tracks|)
  {
    var d: nat;
    if k < |s.tracks| {
      d :| 0 <= d < |dets| && m.toTrack[d] == k;
    } else {
      d := NewBeforeHits(m.toTrack, |dets|, k - |s.tracks|);
    }
    assert Slot(s, m.toTrack, d) == k;
    assert p.outputs[d] in p.outputs;
  }

  lemma LaidOut(s: TrackerState, dets: seq<Det>, frame: nat, m: Matching, p: Progress)
    requires Sound(s) && Consistent(m, |dets|, |s.tracks|) && Absorbed(s, dets, m.toTrack, frame, |dets|, p)
    ensures Layout(s.tracks, m.used, frame, p.outputs, Aged(p.tracks, m.used, |s.tracks|))
  {
    var a := Aged(p.tracks, m.used, |s.tracks|);
    forall t | 0 <= t < |s.tracks| && !m.used[t]
      ensures p.tracks[t] == s.tracks[t] && s.tracks[t].id !in OutIds(p.outputs)
    {
      OldSlot(s, dets, frame, m, p, t);
    }
    forall k | 0 <= k < |a| && (k < |s.tracks| ==> m.used[k])
      ensures a[k].id in OutIds(p.outputs)
    {
      OtherSlot(s, dets, frame, m, p, k);
    }
    forall d | 0 <= d < |dets|
      ensures Track(p.outputs[d].id, p.outputs[d].det, 0, frame) in a
    {
      var k := Slot(s, m.toTrack, d);
      assert a[k] == Track(p.outputs[d].id, p.outputs[d].det, 0, frame);
    }
  }

  /** Old tracks keep their ids and new ones are numbered on. */
  lemma Numbered(s: TrackerState, dets: seq<Det>, frame: nat, m: Matching, p: Progress, k: nat)
    requires Sound(s) && Consistent(m, |dets|, |s.tracks|) && Absorbed(s, dets, m.toTrack, frame, |dets|, p)
    requires k < |p.tracks|
    ensures p.tracks[k].id == if k < |s.tracks| then s.tracks[k].id else s.nextId + (k - |s.tracks|)
    ensures 1 <= p.tracks[k].id < p.nextId
  {
    if k < |s.tracks| {
      assert s.tracks[k] in s.tracks;
    }
    if k < |s.tracks| && !m.used[k] {
      OldSlot(s, dets, frame, m, p, k);
    } else {
      OtherSlot(s, dets, frame, m, p, k);
    }
  }

  lemma {:induction false} YoungDistinct(tracks: seq<Track>)
    requires Distinct(tracks)
    ensures Distinct(Young(tracks))
  {
    if tracks != [] {
      assert forall t :: t in tracks[1..] ==> t.id != tracks[0].id;
      YoungDistinct(tracks[1..]);
      var r := Young(tracks[1..]);
      assert forall i :: 0 <= i < |r| ==> r[i] in r;
    }
  }

  lemma SoundAfter(s: TrackerState, dets: seq<Det>, frame: nat, m: Matching, p: Progress)
    requires Sound(s) && Consistent(m, |dets|, |s.tracks|) && Absorbed(s, dets, m.toTrack, frame, |dets|, p)
    ensures var a := Aged(p.tracks, m.used, |s.tracks|);
      Sound(TrackerState(Young(a), p.nextId)) && forall t :: 0 <= t < |s.tracks| ==> a[t].id == s.tracks[t].id
  {
    var a := Aged(p.tracks, m.used, |s.tracks|);
    forall k | 0 <= k < |a|
      ensures a[k].id == (if k < |s.tracks| then s.tracks[k].id else s.nextId + (k - |s.tracks|))
      ensures 1 <= a[k].id < p.nextId
    {
      Numbered(s, dets, frame, m, p, k);
    }
    forall i, j | 0 <= i < j < |a|
      ensures a[i].id != a[j].id
    {
      if i < |s.tracks| {
        assert s.tracks[i] in s.tracks;
      }
    }
    YoungDistinct(a);
  }

  lemma NotReportedAged(T: seq<Track>, used: seq<bool>, frame: nat, outs: seq<Output>, a: seq<Track>, x: Track)
    requires Distinct(T) && Layout(T, used, frame, outs, a) && x in Young(a) && x.id !in OutIds(outs)
    ensures x.id in Live(T) && Live(T)[x.id].unseen < MAX_AGE
    ensures x == Live(T)[x.id].(unseen := Live(T)[x.id].unseen + 1)
  {
    var k :| 0 <= k < |a| && a[k] == x;
    assert k < |T| && !used[k];
    assert T[k] in T;
  }

  lemma UnmatchedStays(T: seq<Track>, used: seq<bool>, frame: nat, outs: seq<Output>, a: seq<Track>, x: Track)
    requires Layout(T, used, frame, outs, a) && x in T && x.id !in OutIds(outs) && x.unseen < MAX_AGE
    requires forall t :: 0 <= t < |T| ==> a[t].id == T[t].id
    ensures x.(unseen := x.unseen + 1) in Young(a)
  {
    var k :| 0 <= k < |T| && T[k] == x;
    assert a[k].id !in OutIds(outs);
    assert a[k] == x.(unseen := x.unseen + 1);
    assert a[k] in a;
  }

  lemma MovedAfter(T: seq<Track>, used: seq<bool>, frame: nat, outs: seq<Output>, a: seq<Track>)
    requires Distinct(T) && Distinct(Young(a)) && Layout(T, used, frame, outs, a)
    requires forall t :: 0 <= t < |T| ==> a[t].id == T[t].id
    ensures Moved(Live(T), frame, outs, Live(Young(a)))
  {
    var L, N := Live(T), Live(Young(a));
    forall o | o in outs
      ensures o.id in N && N[o.id] == Track(o.id, o.det, 0, frame)
    {
      assert Track(o.id, o.det, 0, frame) in Young(a);
    }
    forall id | id in N && id !in OutIds(outs)
      ensures id in L && L[id].unseen < MAX_AGE && N[id] == L[id].(unseen := L[id].unseen + 1)
    {
      NotReportedAged(T, used, frame, outs, a, N[id]);
    }
    forall id | id in L && id !in OutIds(outs) && L[id].unseen < MAX_AGE
      ensures id in N
    {
      UnmatchedStays(T, used, frame, outs, a, L[id]);
    }
  }

  /** One frame: every live track is soundly numbered again, every detection is
      reported once, and the live tracks moved exactly as Moved says. */
  lemma UpdateMoves(s: TrackerState, frame: nat, dets: seq<Det>)
    requires Sound(s)
    ensures var (n, outs) := Update(s, frame, dets);
      Sound(n) && Reported(s, dets, outs, n.nextId) && Moved(Live(s.tracks), frame, outs, Live(n.tracks))
  {
    var m := Match(Pairing(dets, s.tracks));
    FrameMatching(dets, s.tracks);
    AbsorbDoes(s, dets, m.toTrack, m.used, frame, |dets|);
    var p := Absorb(s, dets, m.toTrack, frame, |dets|);
    ReportedOnce(s, dets, frame, m, p);
    LaidOut(s, dets, frame, m, p);
    SoundAfter(s, dets, frame, m, p);
    MovedAfter(s.tracks, m.used, frame, p.outputs, Aged(p.tracks, m.used, |s.tracks|));
  }

  /** Detection d is reported with the id of the track it is matched to, or with
      the next id not yet given out. */
  lemma UpdateAssigns(s: TrackerState, frame: nat, dets: seq<Det>)
    requires Sound(s)
    ensures var m := Match(Pairing(dets, s.tracks));
      && Consistent(m, |dets|, |s.tracks|)
      && forall d :: 0 <= d < |dets| ==>
           Update(s, frame, dets).1[d] ==
           Output(dets[d], if m.toTrack[d] >= 0 then s.tracks[m.toTrack[d]].id
                           else s.nextId + NewBefore(m.toTrack, d))
  {
    var m := Match(Pairing(dets, s.tracks));
    FrameMatching(dets, s.tracks);
    AbsorbDoes(s, dets, m.toTrack, m.used, frame, |dets|);
  }

  /** Only this detection and this track overlap enough, among all pairs of either. */
  predicate SolePair(dets: seq<Det>, tracks: seq<Track>, d: nat, t: nat) {
    && d < |dets| && t < |tracks| && Eligible(dets[d], tracks[t])
    && (forall e :: 0 <= e < |dets| && Eligible(dets[e], tracks[t]) ==> e == d)
    && (forall u :: 0 <= u < |tracks| && Eligible(dets[d], tracks[u]) ==> u == t)
  }

  lemma SoleIsMatched(dets: seq<Det>, tracks: seq<Track>, d: nat, t: nat)
    requires SolePair(dets, tracks, d, t)
    ensures var m := Match(Pairing(dets, tracks)); |m.toTrack| == |dets| && m.toTrack[d] == t
  {
    var p, m := Pairing(dets, tracks), Match(Pairing(dets, tracks));
    FrameMatching(dets, tracks);
    assert Beaten(p, m, d, t);
    assert forall e :: 0 <= e < |dets| && m.toTrack[e] == t ==> Eligible(dets[e], tracks[m.toTrack[e]]);
  }

  /** A detection that overlaps one track only, and that track no other detection,
      keeps the track's id. */
  lemma SolePairKeepsId(s: TrackerState, frame: nat, dets: seq<Det>, d: nat, t: nat)
    requires Sound(s) && SolePair(dets, s.tracks, d, t)
    ensures Update(s, frame, dets).1[d] == Output(dets[d], s.tracks[t].id)
  {
    SoleIsMatched(dets, s.tracks, d, t);
    UpdateAssigns(s, frame, dets);
  }

  /** A detection that overlaps no track gets an id never used. */
  lemma UnpairedGetsNewId(s: TrackerState, frame: nat, dets: seq<Det>, d: nat)
    requires Sound(s) && d < |dets| && forall t :: 0 <= t < |s.tracks| ==> !Eligible(dets[d], s.tracks[t])
    ensures Update(s, frame, dets).1[d].id >= s.nextId
  {
    FrameMatching(dets, s.tracks);
    UpdateAssigns(s, frame, dets);
  }

  // ---- how many ----

  /** The ids live after being unseen for u frames. */
  ghost function UnseenFor(L: map<nat, Track>, u: nat): set<nat> {
    set id | id in L && L[id].unseen == u
  }

  /** No age has more than 64 tracks, and no track is older than 30. */
  ghost predicate Bounded(L: map<nat, Track>) {
    (forall u :: |UnseenFor(L, u)| <= 64) && (forall id :: id in L ==> L[id].unseen <= MAX_AGE)
  }

  lemma {:induction false} OutIdsSize(outs: seq<Output>)
    ensures |OutIds(outs)| <= |outs|
  {
    if outs != [] {
      OutIdsSize(outs[1..]);
      assert outs == [outs[0]] + outs[1..];
      assert OutIds(outs) == {outs[0].id} + OutIds(outs[1..]);
    }
  }

  /** A frame of at most 64 detections keeps every age at 64 tracks or fewer. */
  lemma MovedBounded(L: map<nat, Track>, frame: nat, outs: seq<Output>, L': map<nat, Track>)
    requires Bounded(L) && |outs| <= 64 && Moved(L, frame, outs, L')
    ensures Bounded(L')
  {
    forall id | id in L' && id in OutIds(outs)
      ensures L'[id].unseen == 0
    {
      var o :| o in outs && o.id == id;
    }
    forall u: nat
      ensures |UnseenFor(L', u)| <= 64
    {
      if u == 0 {
        OutIdsSize(outs);
        SubsetSize(UnseenFor(L', 0), OutIds(outs));
      } else {
        SubsetSize(UnseenFor(L', u), UnseenFor(L, u - 1));
      }
    }
  }

  ghost function YoungerThan(L: map<nat, Track>, n: nat): set<nat> {
    set id | id in L && L[id].unseen < n
  }

  lemma {:induction false} KeysBelow(L: map<nat, Track>, n: nat)
    requires forall u :: |UnseenFor(L, u)| <= 64
    ensures |YoungerThan(L, n)| <= 64 * n
  {
    if n == 0 {
      assert YoungerThan(L, n) == {};
    } else {
      KeysBelow(L, n - 1);
      assert YoungerThan(L, n) == YoungerThan(L, n - 1) + UnseenFor(L, n - 1);
      assert |YoungerThan(L, n)| <= |YoungerThan(L, n - 1)| + |UnseenFor(L, n - 1)|;
    }
  }

  /** At most 64 * 31 tracks are live. */
  lemma BoundedSize(L: map<nat, Track>)
    requires Bounded(L)
    ensures |L| <= 64 * 31
  {
    KeysBelow(L, 31);
    assert L.Keys == YoungerThan(L, 31);
  }
}
