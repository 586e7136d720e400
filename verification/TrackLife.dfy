/** What holds of one track over every run of frames. */
module TrackLife {
  import opened Wire
  import opened Tracker
  import opened TrackStates
  import opened RealFacts

  /** What one frame does to a track that is observed at most once in it. */
  datatype Event = Observe(obs: Observation) | Miss

  function After(s: Snapshot, roi: Roi, events: seq<Event>): Snapshot {
    if events == [] then s
    else
      var before := After(s, roi, events[..|events| - 1]);
      match events[|events| - 1]
      case Observe(obs) => Updated(before, obs, roi)
      case Miss => MarkedMissed(before)
  }

  function Observed(events: seq<Event>): seq<Observation> {
    if events == [] then []
    else
      var e := events[|events| - 1];
      var before := Observed(events[..|events| - 1]);
      if e.Observe? then before + [e.obs] else before
  }

  /** Frames since the last observation. */
  function TrailingMisses(events: seq<Event>): nat {
    if events == [] || events[|events| - 1].Observe? then 0 else 1 + TrailingMisses(events[..|events| - 1])
  }

  function Tail<T>(s: seq<T>, n: nat): seq<T> {
    if |s| <= n then s else s[|s| - n..]
  }

  /** The region events published frame by frame: true for entering. */
  function Crossings(s: Snapshot, roi: Roi, events: seq<Event>): seq<bool> {
    if events == [] then []
    else
      var before := Crossings(s, roi, events[..|events| - 1]);
      var now := After(s, roi, events);
      if now.entered then before + [true] else if now.exited then before + [false] else before
  }

  lemma OneEvent(s: Snapshot, roi: Roi, e: Event)
    ensures var t := if e.Observe? then Updated(s, e.obs, roi) else MarkedMissed(s);
      && t.id == s.id && t.name == s.name && t.firstSeen == s.firstSeen && t.sinceFirst == s.sinceFirst + 1
      && (e.Observe? ==>
            && t.seen == s.seen + 1 && t.missed == 0 && t.last == e.obs && t.lastSeen == e.obs.stamp
            && t.history == Pushed(s.history, e.obs) && t.loiter == Loiter(t.history)
            && t.inRoi == Contains(roi, e.obs.cx, e.obs.cy)
            && t.entered == (t.inRoi && !s.inRoi) && t.exited == (!t.inRoi && s.inRoi))
      && (e.Miss? ==>
            && t.seen == s.seen && t.missed == s.missed + 1 && t.last == s.last && t.lastSeen == s.lastSeen
            && t.history == s.history && t.loiter == s.loiter && t.inRoi == s.inRoi && !t.entered && !t.exited)
  {
  }

  lemma PushedTail(o: seq<Observation>, obs: Observation)
    ensures Pushed(Tail(o, HISTORY_MAX), obs) == Tail(o + [obs], HISTORY_MAX)
  {
  }

  /** The counters count frames and observations, and the ring holds exactly the
      latest observations. */
  lemma {:induction false} CountersAndHistory(id: nat, name: Name, stamp: nat, roi: Roi, events: seq<Event>)
    ensures var s := After(Fresh(id, name, stamp), roi, events);
      && s.id == id && s.name == Cut(name) && s.firstSeen == stamp
      && s.sinceFirst == |events| && s.seen == |Observed(events)| <= |events|
      && s.missed == TrailingMisses(events)
      && s.history == Tail(Observed(events), 16)
      && s.loiter == Loiter(s.history)
      && (s.seen > 0 ==> s.last == Observed(events)[s.seen - 1] && s.lastSeen == s.last.stamp)
      && s.inRoi == (s.seen > 0 && Contains(roi, s.last.cx, s.last.cy))
  {
    if events != [] {
      var before, e := events[..|events| - 1], events[|events| - 1];
      CountersAndHistory(id, name, stamp, roi, before);
      OneEvent(After(Fresh(id, name, stamp), roi, before), roi, e);
      if e.Observe? {
        PushedTail(Observed(before), e.obs);
      }
    }
  }

  /** Visibility is in (0, 1] from the first observation on, and is 1 exactly
      while no frame was missed. */
  lemma VisibilityRange(id: nat, name: Name, stamp: nat, roi: Roi, events: seq<Event>)
    requires events != [] && events[0].Observe?
    ensures var s := After(Fresh(id, name, stamp), roi, events);
      && Visibility(s) == |Observed(events)| as real / |events| as real
      && 0.0 < Visibility(s) <= 1.0 && (Visibility(s) == 1.0 <==> |Observed(events)| == |events|)
  {
    CountersAndHistory(id, name, stamp, roi, events);
    FirstObserved(events);
    UnitRatio(|Observed(events)| as real, |events| as real);
  }

  /** The status is told from the run: lost while frames are missed, tentative
      up to the third observation, active after it. */
  lemma StatusTold(id: nat, name: Name, stamp: nat, roi: Roi, events: seq<Event>)
    ensures var status := StatusOf(After(Fresh(id, name, stamp), roi, events));
      && (status.Lost? <==> events != [] && events[|events| - 1].Miss?)
      && (status.Tentative? <==> |Observed(events)| < 3 && !status.Lost?)
  {
    CountersAndHistory(id, name, stamp, roi, events);
  }

  /** The duration is the time between the first stamp and the latest
      observation's in whole milliseconds, modulo 2^32, and 0 if it ran backwards. */
  lemma DurationTold(id: nat, name: Name, stamp: nat, roi: Roi, events: seq<Event>)
    requires Observed(events) != []
    ensures var d, end := DurationMs(After(Fresh(id, name, stamp), roi, events)),
                          Observed(events)[|Observed(events)| - 1].stamp;
      if end <= stamp then d == 0
      else exists wraps: nat ::
        0 <= d < 0x1_0000_0000 && 0 <= end - stamp - 1000 * (d + wraps * 0x1_0000_0000) < 1000
  {
    CountersAndHistory(id, name, stamp, roi, events);
    var end := Observed(events)[|Observed(events)| - 1].stamp;
    if end > stamp {
      var ms := (end - stamp) / 1000;
      var wraps: nat := ms / 0x1_0000_0000;
      assert 0 <= end - stamp - 1000 * (ms % 0x1_0000_0000 + wraps * 0x1_0000_0000) < 1000;
    }
  }

  lemma {:induction false} FirstObserved(events: seq<Event>)
    requires events != [] && events[0].Observe?
    ensures Observed(events) != []
  {
    if |events| > 1 {
      FirstObserved(events[..|events| - 1]);
    }
  }

  /** `c` starts with an entry, alternates, and leaves the track inside or outside. */
  ghost predicate Alternates(c: seq<bool>, inside: bool) {
    && (forall i :: 0 <= i < |c| ==> c[i] == (i % 2 == 0))
    && Entries(c) - Exits(c) == (if inside then 1 else 0)
    && (|c| % 2 == 1) == inside
  }

  lemma AlternatesOn(c: seq<bool>, inside: bool)
    requires Alternates(c, inside)
    ensures Alternates(c + [!inside], !inside)
  {
    assert (c + [!inside])[..|c|] == c;
  }

  lemma CrossingsNext(s: Snapshot, roi: Roi, events: seq<Event>)
    requires events != []
    ensures var was, now := After(s, roi, events[..|events| - 1]).inRoi, After(s, roi, events).inRoi;
      Crossings(s, roi, events) ==
      Crossings(s, roi, events[..|events| - 1]) + if now != was then [now] else []
  {
  }

  /** Published region events strictly alternate, starting with an entry, and
      the track is inside exactly when there was one entry more than exits. */
  lemma {:induction false} CrossingsAlternate(id: nat, name: Name, stamp: nat, roi: Roi, events: seq<Event>)
    ensures Alternates(Crossings(Fresh(id, name, stamp), roi, events),
                       After(Fresh(id, name, stamp), roi, events).inRoi)
  {
    if events != [] {
      var before := events[..|events| - 1];
      CrossingsAlternate(id, name, stamp, roi, before);
      CrossingsNext(Fresh(id, name, stamp), roi, events);
      AlternatesOn(Crossings(Fresh(id, name, stamp), roi, before), After(Fresh(id, name, stamp), roi, before).inRoi);
    }
  }

  function Entries(c: seq<bool>): nat {
    if c == [] then 0 else Entries(c[..|c| - 1]) + if c[|c| - 1] then 1 else 0
  }

  function Exits(c: seq<bool>): nat {
    if c == [] then 0 else Exits(c[..|c| - 1]) + if c[|c| - 1] then 0 else 1
  }

  // ---- velocity ----

  /** b follows a, moving at most v pixels per second on each axis. */
  predicate WithinSpeed(a: Observation, b: Observation, v: real) {
    var us := Elapsed(b.stamp, a.stamp);
    us > 100 ==>
      && -v * us as real <= (b.cx - a.cx) as real * 1000000.0 <= v * us as real
      && -v * us as real <= (b.cy - a.cy) as real * 1000000.0 <= v * us as real
  }

  predicate Slow(o: seq<Observation>, v: real) {
    forall i {:trigger o[i]} :: 1 <= i < |o| ==> WithinSpeed(o[i - 1], o[i], v)
  }

  lemma SlowPrefix(o: seq<Observation>, n: nat, v: real)
    requires n <= |o| && Slow(o, v)
    ensures Slow(o[..n], v)
  {
    forall i | 1 <= i < n
      ensures WithinSpeed(o[..n][i - 1], o[..n][i], v)
    {
      assert o[..n][i] == o[i] && o[..n][i - 1] == o[i - 1];
    }
  }

  lemma SmoothedWithin(was: real, d: int, us: nat, v: real)
    requires -v <= was <= v
    requires us > 100 ==> -v * us as real <= d as real * 1000000.0 <= v * us as real
    ensures -v <= Smoothed(was, d, us) <= v
  {
    if us > 100 {
      QuotientBetween(d as real * 1000000.0, us as real, -v, v);
    }
  }

  /** One observation keeps the smoothed velocity within v. */
  lemma FollowedWithin(s: Snapshot, obs: Observation, roi: Roi, v: real)
    requires -v <= s.vx <= v && -v <= s.vy <= v
    requires s.seen > 0 ==> WithinSpeed(s.last, obs, v)
    ensures var t := Updated(s, obs, roi); -v <= t.vx <= v && -v <= t.vy <= v
  {
    if s.seen > 0 {
      var us := Elapsed(obs.stamp, s.last.stamp);
      SmoothedWithin(s.vx, obs.cx - s.last.cx, us, v);
      SmoothedWithin(s.vy, obs.cy - s.last.cy, us, v);
    }
  }

  /** Smoothing never overshoots: a track whose successive observations stay
      within v pixels per second has a smoothed velocity within v. */
  lemma {:induction false} VelocityWithin(id: nat, name: Name, stamp: nat, roi: Roi, events: seq<Event>, v: real)
    requires v >= 0.0
    requires Slow(Observed(events), v)
    ensures var s := After(Fresh(id, name, stamp), roi, events); -v <= s.vx <= v && -v <= s.vy <= v
  {
    if events != [] {
      var n := |events| - 1;
      var before := events[..n];
      var o, p := Observed(events), Observed(before);
      assert p == o[..|p|];
      SlowPrefix(o, |p|, v);
      VelocityWithin(id, name, stamp, roi, before, v);
      CountersAndHistory(id, name, stamp, roi, before);
      var s := After(Fresh(id, name, stamp), roi, before);
      if events[n].Observe? {
        assert s.seen > 0 ==> WithinSpeed(o[s.seen - 1], o[s.seen], v);
        FollowedWithin(s, events[n].obs, roi, v);
      }
    }
  }

  // ---- what the velocity is ----

  /** A velocity v becomes t on moving d pixels in us microseconds: after more than
      100 of them twice t is v plus the distance over the time. */
  ghost predicate Follows(v: real, t: real, d: int, us: nat) {
    if us > 100 then (2.0 * t - v) * us as real == 1000000.0 * d as real else t == v
  }

  lemma SmoothedFollows(v: real, d: int, us: nat)
    ensures Follows(v, Smoothed(v, d, us), d, us)
  {
    if us > 100 {
      QuotientTimes(d as real * 1000000.0, us as real);
    }
  }

  lemma UpdatedFollows(s: Snapshot, obs: Observation, roi: Roi)
    requires s.seen > 0
    ensures var t, us := Updated(s, obs, roi), Elapsed(obs.stamp, s.last.stamp);
      Follows(s.vx, t.vx, obs.cx - s.last.cx, us) && Follows(s.vy, t.vy, obs.cy - s.last.cy, us)
  {
    var us := Elapsed(obs.stamp, s.last.stamp);
    SmoothedFollows(s.vx, obs.cx - s.last.cx, us);
    SmoothedFollows(s.vy, obs.cy - s.last.cy, us);
  }

  /** The velocity after one more frame, in any run: it follows the displacement
      from the latest observation, rests on the first and is kept by a miss. */
  lemma VelocityFollows(id: nat, name: Name, stamp: nat, roi: Roi, events: seq<Event>, e: Event)
    ensures var o := Observed(events);
      var s, t := After(Fresh(id, name, stamp), roi, events), After(Fresh(id, name, stamp), roi, events + [e]);
      if e.Observe? && o != [] then
        var us := Elapsed(e.obs.stamp, o[|o| - 1].stamp);
        && Follows(s.vx, t.vx, e.obs.cx - o[|o| - 1].cx, us)
        && Follows(s.vy, t.vy, e.obs.cy - o[|o| - 1].cy, us)
      else t.vx == s.vx && t.vy == s.vy
  {
    CountersAndHistory(id, name, stamp, roi, events);
    var s := After(Fresh(id, name, stamp), roi, events);
    assert (events + [e])[..|events|] == events;
    if e.Observe? && s.seen > 0 {
      UpdatedFollows(s, e.obs, roi);
    }
  }

  lemma {:induction false} UnobservedRests(id: nat, name: Name, stamp: nat, roi: Roi, events: seq<Event>)
    requires |Observed(events)| <= 1
    ensures var s := After(Fresh(id, name, stamp), roi, events); s.vx == 0.0 && s.vy == 0.0
  {
    if events != [] {
      var before := events[..|events| - 1];
      UnobservedRests(id, name, stamp, roi, before);
      CountersAndHistory(id, name, stamp, roi, before);
    }
  }

  /** v is half of d pixels in us microseconds, in pixels per second. */
  ghost predicate HalfOf(v: real, d: int, us: nat) {
    v * us as real == 500000.0 * d as real
  }

  lemma FirstFollow(t: real, d: int, us: nat)
    requires Follows(0.0, t, d, us) && us > 100
    ensures HalfOf(t, d, us)
  {
  }

  /** After two observations the velocity is half the displacement over the time. */
  lemma {:induction false} FirstVelocity(id: nat, name: Name, stamp: nat, roi: Roi, events: seq<Event>)
    requires |Observed(events)| == 2
    requires Elapsed(Observed(events)[1].stamp, Observed(events)[0].stamp) > 100
    ensures var s, a, b := After(Fresh(id, name, stamp), roi, events), Observed(events)[0], Observed(events)[1];
      var us := Elapsed(b.stamp, a.stamp);
      HalfOf(s.vx, b.cx - a.cx, us) && HalfOf(s.vy, b.cy - a.cy, us)
  {
    var before, e := events[..|events| - 1], events[|events| - 1];
    if e.Miss? {
      FirstVelocity(id, name, stamp, roi, before);
    } else {
      var s, t := After(Fresh(id, name, stamp), roi, before), After(Fresh(id, name, stamp), roi, events);
      UnobservedRests(id, name, stamp, roi, before);
      CountersAndHistory(id, name, stamp, roi, before);
      UpdatedFollows(s, e.obs, roi);
      FirstFollow(t.vx, e.obs.cx - s.last.cx, Elapsed(e.obs.stamp, s.last.stamp));
      FirstFollow(t.vy, e.obs.cy - s.last.cy, Elapsed(e.obs.stamp, s.last.stamp));
    }
  }

  /** Both observations of a pair, more than 100 microseconds apart, at velocity (w, u). */
  ghost predicate Moves(a: Observation, b: Observation, w: real, u: real) {
    var us := Elapsed(b.stamp, a.stamp);
    us > 100 && (b.cx - a.cx) as real * 1000000.0 == w * us as real
             && (b.cy - a.cy) as real * 1000000.0 == u * us as real
  }

  ghost predicate Steady(o: seq<Observation>, w: real, u: real) {
    forall i {:trigger o[i]} :: 1 <= i < |o| ==> Moves(o[i - 1], o[i], w, u)
  }

  /** w halved n times. */
  function Halved(w: real, n: nat): real {
    if n == 0 then w else 0.5 * Halved(w, n - 1)
  }

  lemma SmoothedToward(v: real, d: int, us: nat, w: real)
    requires us > 100 && d as real * 1000000.0 == w * us as real
    ensures w - Smoothed(v, d, us) == 0.5 * (w - v)
  {
    QuotientIs(d as real * 1000000.0, us as real, w);
  }

  lemma QuotientIs(x: real, u: real, w: real)
    requires u > 0.0 && x == w * u
    ensures x / u == w
  {
  }

  lemma SteadyStep(s: Snapshot, obs: Observation, roi: Roi, w: real, u: real)
    requires s.seen > 0 && Moves(s.last, obs, w, u)
    ensures var t := Updated(s, obs, roi); w - t.vx == 0.5 * (w - s.vx) && u - t.vy == 0.5 * (u - s.vy)
  {
    var us := Elapsed(obs.stamp, s.last.stamp);
    SmoothedToward(s.vx, obs.cx - s.last.cx, us, w);
    SmoothedToward(s.vy, obs.cy - s.last.cy, us, u);
  }

  lemma SteadyPrefix(o: seq<Observation>, n: nat, w: real, u: real)
    requires n <= |o| && Steady(o, w, u)
    ensures Steady(o[..n], w, u)
  {
    forall i | 1 <= i < n
      ensures Moves(o[..n][i - 1], o[..n][i], w, u)
    {
      assert o[..n][i] == o[i] && o[..n][i - 1] == o[i - 1];
    }
  }

  /** One steady displacement halves what is missing to w. */
  lemma SteadyLast(id: nat, name: Name, stamp: nat, roi: Roi, before: seq<Event>, obs: Observation, w: real, u: real)
    requires Observed(before) != [] && Moves(Observed(before)[|Observed(before)| - 1], obs, w, u)
    ensures var s, t := After(Fresh(id, name, stamp), roi, before),
                        After(Fresh(id, name, stamp), roi, before + [Observe(obs)]);
      w - t.vx == 0.5 * (w - s.vx) && u - t.vy == 0.5 * (u - s.vy)
  {
    CountersAndHistory(id, name, stamp, roi, before);
    assert (before + [Observe(obs)])[..|before|] == before;
    SteadyStep(After(Fresh(id, name, stamp), roi, before), obs, roi, w, u);
  }

  /** The run up to the last event is steady too, and the last observation moves on from it. */
  lemma SteadyFront(events: seq<Event>, w: real, u: real)
    requires |Observed(events)| > 1 && Steady(Observed(events), w, u)
    ensures var before, e := events[..|events| - 1], events[|events| - 1];
      && Observed(before) != [] && Steady(Observed(before), w, u)
      && (e.Observe? ==> Moves(Observed(before)[|Observed(before)| - 1], e.obs, w, u))
  {
    var o, p := Observed(events), Observed(events[..|events| - 1]);
    assert p == o[..|p|];
    SteadyPrefix(o, |p|, w, u);
    assert Moves(o[|o| - 2], o[|o| - 1], w, u);
  }

  /** A track that moves steadily at w pixels per second from its first
      observation on closes half the remaining distance to w each time: after n
      displacements it is w / 2^n away.  The same on the other axis with u. */
  lemma {:induction false} SteadyConverges(id: nat, name: Name, stamp: nat, roi: Roi, events: seq<Event>,
                                           w: real, u: real)
    requires Observed(events) != [] && Steady(Observed(events), w, u)
    ensures var s, n := After(Fresh(id, name, stamp), roi, events), |Observed(events)| - 1;
      w - s.vx == Halved(w, n) && u - s.vy == Halved(u, n)
  {
    if |Observed(events)| == 1 {
      UnobservedRests(id, name, stamp, roi, events);
    } else {
      var before, e := events[..|events| - 1], events[|events| - 1];
      SteadyFront(events, w, u);
      SteadyConverges(id, name, stamp, roi, before, w, u);
      if e.Observe? {
        assert events == before + [e];
        SteadyLast(id, name, stamp, roi, before, e.obs, w, u);
      }
    }
  }
}
