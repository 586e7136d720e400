/** The presence state machine of the event summarizer, and when it runs the
    language model. */
module Summarizer {
  import opened Tracker
  import opened TrackStates
  import opened Aggregate
  import opened Options

  /** LLM_WINDOW is entered and left within one tick. */
  datatype Phase = NoDrone | DronePresent | Cooldown

  datatype Fsm = Fsm(phase: Phase, present: bool, departed: nat, agg: Agg)

  const START := Fsm(NoDrone, false, 0, map[])

  /** --drone-class and --cooldown-s, in milliseconds. */
  datatype Settings = Settings(droneClass: Name, cooldown: nat)

  /** One turn of the receive loop, with the clock read after it: a frame, or a
      receive timeout.  A disconnect ends the turn before the machine is reached. */
  datatype Tick =
    | Got(frame: seq<Summary>, now: nat)
    | Quiet(now: nat)

  predicate IsDrone(c: Settings, s: Summary) {
    s.name == c.droneClass && s.status != Lost
  }

  function Drones(c: Settings, frame: seq<Summary>): (r: seq<Summary>)
    ensures forall s :: s in r <==> s in frame && IsDrone(c, s)
  {
    if frame == [] then []
    else
      var before := Drones(c, frame[..|frame| - 1]);
      if IsDrone(c, frame[|frame| - 1]) then before + [frame[|frame| - 1]] else before
  }

  lemma DronesNext(c: Settings, frame: seq<Summary>, i: nat)
    requires i < |frame|
    ensures Drones(c, frame[..i + 1]) ==
            if IsDrone(c, frame[i]) then Drones(c, frame[..i]) + [frame[i]] else Drones(c, frame[..i])
  {
    assert frame[..i + 1][..i] == frame[..i];
  }

  lemma TakeAllNext(agg: Agg, recs: seq<Summary>, s: Summary)
    ensures TakeAll(agg, recs + [s]) == Take(TakeAll(agg, recs), s)
  {
    assert (recs + [s])[..|recs|] == recs;
  }

  /** The frame part of a turn. */
  function Receive(c: Settings, s: Fsm, t: Tick): Fsm {
    if t.Quiet? then s
    else
      var drones := Drones(c, t.frame);
      s.(present := drones != [], agg := if s.phase == NoDrone then s.agg else TakeAll(s.agg, drones))
  }

  /** The switch: the new state, and the aggregate handed to the model if it runs. */
  function Switch(c: Settings, s: Fsm, now: nat): (Fsm, Option<Agg>) {
    match s.phase
    case NoDrone => (if s.present then s.(agg := map[], phase := DronePresent) else s, None)
    case DronePresent => (if s.present then s else s.(departed := now, phase := Cooldown), None)
    case Cooldown =>
      if s.present then (s.(phase := DronePresent), None)
      else if Elapsed(now, s.departed) >= c.cooldown then (Fsm(NoDrone, false, s.departed, map[]), Some(s.agg))
      else (s, None)
  }

  function Turn(c: Settings, s: Fsm, t: Tick): (Fsm, Option<Agg>) {
    Switch(c, Receive(c, s, t), t.now)
  }

  class EventSummarizer {
    const settings: Settings
    var phase: Phase
    var present: bool
    var departed: nat
    var agg: Agg

    ghost function State(): Fsm
      reads this
    {
      Fsm(phase, present, departed, agg)
    }

    constructor (settings: Settings)
      ensures State() == START && this.settings == settings
    {
      this.settings := settings;
      phase, present, departed, agg := NoDrone, false, 0, map[];
    }

    method UpdateAggregate(s: Summary)
      modifies this`agg
      ensures agg == Take(old(agg), s)
    {
      var a := if s.id in agg then agg[s.id] else BLANK;
      var firstSeen, firstCx, firstCy := a.firstSeen, a.firstCx, a.firstCy;
      if !a.firstSet {
        firstSeen, firstCx, firstCy := s.firstSeen, s.cx, s.cy;
      }
      var maxSpeed, minLoiter, maxLoiter := a.maxSpeed, a.minLoiter, a.maxLoiter;
      if s.speed > maxSpeed {
        maxSpeed := s.speed;
      }
      if s.loiter < minLoiter {
        minLoiter := s.loiter;
      }
      if s.loiter > maxLoiter {
        maxLoiter := s.loiter;
      }
      agg := agg[s.id := AggTrack(s.name, s.id, Max(a.seen, s.seen), firstSeen, s.lastSeen, Max(a.duration, s.duration),
                                  firstCx, firstCy, s.cx, s.cy, maxSpeed, minLoiter, maxLoiter,
                                  a.everInRoi || s.inRoi, a.entered || s.entered, a.exited || s.exited, true,
                                  s.status)];
    }

    /** The loop over a received frame. */
    method ReceiveFrame(frame: seq<Summary>, ghost now: nat)
      modifies this`present, this`agg
      ensures State() == Receive(settings, old(State()), Got(frame, now))
    {
      ghost var was := agg;
      present := false;
      for i := 0 to |frame|
        invariant present == (Drones(settings, frame[..i]) != [])
        invariant agg == if phase == NoDrone then was else TakeAll(was, Drones(settings, frame[..i]))
      {
        DronesNext(settings, frame, i);
        if IsDrone(settings, frame[i]) {
          TakeAllNext(was, Drones(settings, frame[..i]), frame[i]);
          if phase == DronePresent || phase == Cooldown {
            UpdateAggregate(frame[i]);
          }
          present := true;
        }
      }
      assert frame[..|frame|] == frame;
    }

    method Step(t: Tick) returns (fired: Option<Agg>)
      modifies this
      ensures (State(), fired) == Turn(settings, old(State()), t)
    {
      if t.Got? {
        ReceiveFrame(t.frame, t.now);
      }
      fired := None;
      match phase {
        case NoDrone =>
          if present {
            agg := map[];
            phase := DronePresent;
          }
        case DronePresent =>
          if !present {
            departed := t.now;
            phase := Cooldown;
          }
        case Cooldown =>
          if present {
            phase := DronePresent;
          } else if Elapsed(t.now, departed) >= settings.cooldown {
            fired := Some(agg);
            agg := map[];
            present := false;
            phase := NoDrone;
          }
      }
    }
  }

  // ---- runs ----

  /** The state after the first n turns, and the number of turns up to and
      including the last one that ran the model. */
  datatype Log = Log(fsm: Fsm, base: nat)

  function After(c: Settings, ticks: seq<Tick>, n: nat): Log
    requires n <= |ticks|
  {
    if n == 0 then Log(START, 0)
    else Next(c, After(c, ticks, n - 1), ticks[n - 1], n)
  }

  function Next(c: Settings, log: Log, t: Tick, n: nat): Log {
    var (s, fired) := Turn(c, log.fsm, t);
    Log(s, if fired.Some? then n else log.base)
  }

  /** What turn n hands to the model, if anything. */
  function Fired(c: Settings, ticks: seq<Tick>, n: nat): Option<Agg>
    requires n < |ticks|
  {
    Turn(c, After(c, ticks, n).fsm, ticks[n]).1
  }

  // ---- the same, told from the ticks alone ----

  predicate DroneAt(c: Settings, ticks: seq<Tick>, i: int) {
    0 <= i < |ticks| && ticks[i].Got? && Drones(c, ticks[i].frame) != []
  }

  predicate ClearAt(c: Settings, ticks: seq<Tick>, i: int) {
    0 <= i < |ticks| && ticks[i].Got? && Drones(c, ticks[i].frame) == []
  }

  ghost predicate NoDroneIn(c: Settings, ticks: seq<Tick>, i: int, j: int) {
    forall k :: i <= k < j ==> !DroneAt(c, ticks, k)
  }

  ghost predicate NoClearIn(c: Settings, ticks: seq<Tick>, i: int, j: int) {
    forall k :: i <= k < j ==> !ClearAt(c, ticks, k)
  }

  /** Turn o opens an episode: the first drone frame since the model last ran. */
  ghost predicate Opens(c: Settings, ticks: seq<Tick>, base: nat, o: int) {
    base <= o && DroneAt(c, ticks, o) && NoDroneIn(c, ticks, base, o)
  }

  /** The last frame in turns o .. n - 1 showed a drone, in turn e. */
  ghost predicate Here(c: Settings, ticks: seq<Tick>, o: int, n: int, e: int) {
    o <= e < n && DroneAt(c, ticks, e) && NoClearIn(c, ticks, e, n) && NoDroneIn(c, ticks, e + 1, n)
  }

  /** The drone left in turn d: the frame before was a drone frame, and every
      frame in turns d .. n - 1 was clear. */
  ghost predicate Left(c: Settings, ticks: seq<Tick>, o: int, n: int, d: int) {
    && d < n && ClearAt(c, ticks, d) && NoDroneIn(c, ticks, d, n)
    && exists e :: Here(c, ticks, o, d, e)
  }

  /** The drone records of turns i .. j - 1. */
  function Records(c: Settings, ticks: seq<Tick>, i: int, j: int): seq<Summary>
    requires j <= |ticks| && 0 <= i
    decreases j
  {
    if j <= i then []
    else Records(c, ticks, i, j - 1) + if ticks[j - 1].Got? then Drones(c, ticks[j - 1].frame) else []
  }

  ghost predicate ShowsDrone(c: Settings, ticks: seq<Tick>, n: nat, log: Log, o: int, e: int)
    requires n <= |ticks|
  {
    && Opens(c, ticks, log.base, o) && Here(c, ticks, o, n, e)
    && log.fsm.agg == TakeAll(map[], Records(c, ticks, o + 1, n))
  }

  ghost predicate CoolsDown(c: Settings, ticks: seq<Tick>, n: nat, log: Log, o: int, d: int)
    requires n <= |ticks|
  {
    && Opens(c, ticks, log.base, o) && Left(c, ticks, o, n, d) && log.fsm.departed == ticks[d].now
    && log.fsm.agg == TakeAll(map[], Records(c, ticks, o + 1, n))
  }

  /** The machine's state after n turns is the one the ticks call for. */
  ghost predicate Explains(c: Settings, ticks: seq<Tick>, n: nat, log: Log)
    requires n <= |ticks|
  {
    var s := log.fsm;
    && log.base <= n
    && match s.phase
       case NoDrone => !s.present && s.agg == map[] && NoDroneIn(c, ticks, log.base, n)
       case DronePresent => s.present && exists o, e :: ShowsDrone(c, ticks, n, log, o, e)
       case Cooldown => !s.present && exists o, d :: CoolsDown(c, ticks, n, log, o, d)
  }

  lemma RecordsNext(c: Settings, ticks: seq<Tick>, i: nat, n: nat)
    requires i <= n < |ticks|
    ensures TakeAll(map[], Records(c, ticks, i, n + 1)) ==
            if ticks[n].Got? then TakeAll(TakeAll(map[], Records(c, ticks, i, n)), Drones(c, ticks[n].frame))
            else TakeAll(map[], Records(c, ticks, i, n))
  {
    if ticks[n].Got? {
      TakeAppend(map[], Records(c, ticks, i, n), Drones(c, ticks[n].frame));
    } else {
      assert Records(c, ticks, i, n + 1) == Records(c, ticks, i, n);
    }
  }

  lemma Received(c: Settings, ticks: seq<Tick>, n: nat, s: Fsm, o: nat)
    requires o < n < |ticks| && s.phase != NoDrone && s.agg == TakeAll(map[], Records(c, ticks, o + 1, n))
    ensures var r := Receive(c, s, ticks[n]);
      && r.phase == s.phase && r.departed == s.departed
      && r.present == (if ticks[n].Got? then DroneAt(c, ticks, n) else s.present)
      && r.agg == TakeAll(map[], Records(c, ticks, o + 1, n + 1))
  {
    RecordsNext(c, ticks, o + 1, n);
  }

  /** The aggregate of the episode opened in turn o, after n turns. */
  ghost predicate Gathers(c: Settings, ticks: seq<Tick>, o: int, n: nat, agg: Agg)
    requires n <= |ticks|
  {
    0 <= o && agg == TakeAll(map[], Records(c, ticks, o + 1, n))
  }

  lemma StepFromNoDrone(c: Settings, ticks: seq<Tick>, n: nat, log: Log)
    requires n < |ticks| && Explains(c, ticks, n, log) && log.fsm.phase == NoDrone
    ensures Explains(c, ticks, n + 1, Next(c, log, ticks[n], n + 1))
  {
    if DroneAt(c, ticks, n) {
      assert ShowsDrone(c, ticks, n + 1, Next(c, log, ticks[n], n + 1), n, n);
    }
  }

  lemma DroneLeaves(c: Settings, ticks: seq<Tick>, n: nat, log: Log, o: int, e: int, next: Log)
    requires n < |ticks| && ShowsDrone(c, ticks, n, log, o, e) && log.base <= n && ClearAt(c, ticks, n)
    requires next.base == log.base && next.fsm.phase == Cooldown && !next.fsm.present
    requires next.fsm.departed == ticks[n].now && Gathers(c, ticks, o, n + 1, next.fsm.agg)
    ensures Explains(c, ticks, n + 1, next)
  {
    assert Left(c, ticks, o, n + 1, n);
    assert CoolsDown(c, ticks, n + 1, next, o, n);
  }

  lemma DroneStays(c: Settings, ticks: seq<Tick>, n: nat, log: Log, o: int, e: int, next: Log)
    requires n < |ticks| && ShowsDrone(c, ticks, n, log, o, e) && log.base <= n && !ClearAt(c, ticks, n)
    requires next.base == log.base && next.fsm.phase == DronePresent && next.fsm.present
    requires Gathers(c, ticks, o, n + 1, next.fsm.agg)
    ensures Explains(c, ticks, n + 1, next)
  {
    var e' := if DroneAt(c, ticks, n) then n else e;
    assert Here(c, ticks, o, n + 1, e');
    assert ShowsDrone(c, ticks, n + 1, next, o, e');
  }

  lemma DroneReturns(c: Settings, ticks: seq<Tick>, n: nat, log: Log, o: int, d: int, next: Log)
    requires n < |ticks| && CoolsDown(c, ticks, n, log, o, d) && log.base <= n && DroneAt(c, ticks, n)
    requires next.base == log.base && next.fsm.phase == DronePresent && next.fsm.present
    requires Gathers(c, ticks, o, n + 1, next.fsm.agg)
    ensures Explains(c, ticks, n + 1, next)
  {
    assert ShowsDrone(c, ticks, n + 1, next, o, n);
  }

  lemma DroneStaysAway(c: Settings, ticks: seq<Tick>, n: nat, log: Log, o: int, d: int, next: Log)
    requires n < |ticks| && CoolsDown(c, ticks, n, log, o, d) && log.base <= n && !DroneAt(c, ticks, n)
    requires next.base == log.base && next.fsm.phase == Cooldown && !next.fsm.present
    requires next.fsm.departed == log.fsm.departed && Gathers(c, ticks, o, n + 1, next.fsm.agg)
    ensures Explains(c, ticks, n + 1, next)
  {
    assert CoolsDown(c, ticks, n + 1, next, o, d);
  }

  lemma StepFromPresent(c: Settings, ticks: seq<Tick>, n: nat, log: Log)
    requires n < |ticks| && Explains(c, ticks, n, log) && log.fsm.phase == DronePresent
    ensures Explains(c, ticks, n + 1, Next(c, log, ticks[n], n + 1))
  {
    var o, e :| ShowsDrone(c, ticks, n, log, o, e);
    Received(c, ticks, n, log.fsm, o);
    if ClearAt(c, ticks, n) {
      DroneLeaves(c, ticks, n, log, o, e, Next(c, log, ticks[n], n + 1));
    } else {
      DroneStays(c, ticks, n, log, o, e, Next(c, log, ticks[n], n + 1));
    }
  }

  lemma StepFromCooldown(c: Settings, ticks: seq<Tick>, n: nat, log: Log)
    requires n < |ticks| && Explains(c, ticks, n, log) && log.fsm.phase == Cooldown
    ensures Explains(c, ticks, n + 1, Next(c, log, ticks[n], n + 1))
  {
    var o, d :| CoolsDown(c, ticks, n, log, o, d);
    var next := Next(c, log, ticks[n], n + 1);
    Received(c, ticks, n, log.fsm, o);
    if DroneAt(c, ticks, n) {
      DroneReturns(c, ticks, n, log, o, d, next);
    } else if next.fsm.phase == Cooldown {
      DroneStaysAway(c, ticks, n, log, o, d, next);
    }
  }

  lemma StepExplains(c: Settings, ticks: seq<Tick>, n: nat, log: Log)
    requires n < |ticks| && Explains(c, ticks, n, log)
    ensures Explains(c, ticks, n + 1, Next(c, log, ticks[n], n + 1))
  {
    match log.fsm.phase
    case NoDrone => StepFromNoDrone(c, ticks, n, log);
    case DronePresent => StepFromPresent(c, ticks, n, log);
    case Cooldown => StepFromCooldown(c, ticks, n, log);
  }

  /** The machine always agrees with the history of ticks. */
  lemma {:induction false} AlwaysExplained(c: Settings, ticks: seq<Tick>, n: nat)
    requires n <= |ticks|
    ensures Explains(c, ticks, n, After(c, ticks, n))
  {
    if n > 0 {
      AlwaysExplained(c, ticks, n - 1);
      StepExplains(c, ticks, n - 1, After(c, ticks, n - 1));
    }
  }

  /** Turn n is due: an episode opened since the last model run, the drone left in
      a turn d before n, no drone frame came since, and the cooldown has passed. */
  ghost predicate Due(c: Settings, ticks: seq<Tick>, base: nat, n: nat, o: int, d: int)
    requires n < |ticks|
  {
    && Opens(c, ticks, base, o) && d < n && Left(c, ticks, o, n + 1, d)
    && Elapsed(ticks[n].now, ticks[d].now) >= c.cooldown
  }

  /** No departure stands while a later drone frame contradicts it. */
  lemma NoEarlierDeparture(c: Settings, ticks: seq<Tick>, o: int, n: int, d: int, e: int, y: int)
    requires ClearAt(c, ticks, d) && NoDroneIn(c, ticks, d, n) && Here(c, ticks, o, e, y) && e < n
    ensures e <= d
  {
  }

  /** An episode has one departure still standing. */
  lemma OneDeparture(c: Settings, ticks: seq<Tick>, o: int, n: int, d: int, e: int)
    requires Left(c, ticks, o, n, d) && Left(c, ticks, o, n, e)
    ensures d == e
  {
    var x :| Here(c, ticks, o, d, x);
    var y :| Here(c, ticks, o, e, y);
    NoEarlierDeparture(c, ticks, o, n, d, e, y);
    NoEarlierDeparture(c, ticks, o, n, e, d, x);
  }

  /** While the drone is still here, every clear frame was followed by a drone frame. */
  lemma StillHere(c: Settings, ticks: seq<Tick>, o: int, n: int, e: int, d: int)
    requires Here(c, ticks, o, n, e) && d < n && ClearAt(c, ticks, d)
    ensures !NoDroneIn(c, ticks, d, n)
  {
    assert d <= e;
  }

  lemma PresentPhase(c: Settings, ticks: seq<Tick>, n: nat, log: Log, d: int)
    requires n <= |ticks| && Explains(c, ticks, n, log) && d < n && ClearAt(c, ticks, d)
    ensures log.fsm.phase == DronePresent ==> !NoDroneIn(c, ticks, d, n)
  {
    if log.fsm.phase == DronePresent {
      var o, e :| ShowsDrone(c, ticks, n, log, o, e);
      StillHere(c, ticks, o, n, e, d);
    }
  }

  lemma FirstOpens(c: Settings, ticks: seq<Tick>, base: nat, o: int, p: int)
    requires Opens(c, ticks, base, o) && Opens(c, ticks, base, p)
    ensures o == p
  {
    assert o < p ==> !DroneAt(c, ticks, o);
    assert p < o ==> !DroneAt(c, ticks, p);
  }

  lemma FiresDue(c: Settings, ticks: seq<Tick>, n: nat) returns (o: int, d: int)
    requires n < |ticks| && Fired(c, ticks, n).Some?
    ensures Due(c, ticks, After(c, ticks, n).base, n, o, d)
    ensures CoolsDown(c, ticks, n, After(c, ticks, n), o, d)
  {
    AlwaysExplained(c, ticks, n);
    o, d :| CoolsDown(c, ticks, n, After(c, ticks, n), o, d);
  }

  lemma DueFires(c: Settings, ticks: seq<Tick>, n: nat, o: int, d: int)
    requires n < |ticks| && Due(c, ticks, After(c, ticks, n).base, n, o, d)
    ensures Fired(c, ticks, n).Some?
  {
    AlwaysExplained(c, ticks, n);
    var log := After(c, ticks, n);
    assert !DroneAt(c, ticks, n);
    assert Left(c, ticks, o, n, d);
    assert !NoDroneIn(c, ticks, log.base, n);
    PresentPhase(c, ticks, n, log, d);
    var p, e :| CoolsDown(c, ticks, n, log, p, e);
    FirstOpens(c, ticks, log.base, o, p);
    OneDeparture(c, ticks, o, n, d, e);
  }

  ghost predicate EpisodeOver(c: Settings, ticks: seq<Tick>, base: nat, n: nat)
    requires n < |ticks|
  {
    exists o, d :: Due(c, ticks, base, n, o, d)
  }

  /** The model runs in a turn exactly when it is due. */
  lemma RunsWhenDue(c: Settings, ticks: seq<Tick>, n: nat)
    requires n < |ticks|
    ensures Fired(c, ticks, n).Some? <==> EpisodeOver(c, ticks, After(c, ticks, n).base, n)
  {
    var base := After(c, ticks, n).base;
    if Fired(c, ticks, n).Some? {
      var o, d := FiresDue(c, ticks, n);
      assert Due(c, ticks, base, n, o, d);
    }
    if EpisodeOver(c, ticks, base, n) {
      var o, d :| Due(c, ticks, base, n, o, d);
      DueFires(c, ticks, n, o, d);
    }
  }

  /** What the model is given: per id, the fold of the drone records of every frame
      after the one that opened the episode, across any number of reappearances. */
  lemma ModelSeesEpisode(c: Settings, ticks: seq<Tick>, n: nat, o: int)
    requires n < |ticks| && Fired(c, ticks, n).Some? && Opens(c, ticks, After(c, ticks, n).base, o)
    ensures o < n
    ensures Fired(c, ticks, n).value == TakeAll(map[], Records(c, ticks, o + 1, n + 1))
    ensures IsFold(Fired(c, ticks, n).value, Records(c, ticks, o + 1, n + 1))
  {
    var p, d := FiresDue(c, ticks, n);
    FirstOpens(c, ticks, After(c, ticks, n).base, o, p);
    Received(c, ticks, n, After(c, ticks, n).fsm, o);
    AggregateIsFold(Records(c, ticks, o + 1, n + 1));
  }

  lemma {:induction false} BaseCounts(c: Settings, ticks: seq<Tick>, m: nat, n: nat)
    requires m < n <= |ticks| && Fired(c, ticks, m).Some?
    ensures After(c, ticks, n).base > m
  {
    if n > m + 1 {
      BaseCounts(c, ticks, m, n - 1);
    }
  }

  /** At most one model run per episode: between two of them a drone came back. */
  lemma OncePerEpisode(c: Settings, ticks: seq<Tick>, m: nat, n: nat)
    requires m < n < |ticks| && Fired(c, ticks, m).Some? && Fired(c, ticks, n).Some?
    ensures exists o :: m < o < n && DroneAt(c, ticks, o)
  {
    BaseCounts(c, ticks, m, n);
    var o, d := FiresDue(c, ticks, n);
    ModelSeesEpisode(c, ticks, n, o);
    assert DroneAt(c, ticks, o);
  }

  /** The frame that opens an episode is left out: a drone seen in one frame only
      is reported with no track at all. */
  lemma OpeningFrameIsLost(c: Settings, s: Summary, wait: nat)
    requires IsDrone(c, s) && c.cooldown <= wait < 0x1_0000_0000_0000_0000
    ensures var ticks := [Got([s], 0), Got([], 0), Quiet(wait)];
      DroneAt(c, ticks, 0) && Fired(c, ticks, 2) == Some(map[])
  {
    var ticks := [Got([s], 0), Got([], 0), Quiet(wait)];
    assert Drones(c, [s]) == [s] by {
      assert [s][..0] == [];
    }
    assert After(c, ticks, 1) == Log(Fsm(DronePresent, true, 0, map[]), 0);
    assert After(c, ticks, 2) == Log(Fsm(Cooldown, false, 0, map[]), 0);
  }
}
