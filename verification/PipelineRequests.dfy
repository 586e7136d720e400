/** What becomes of a stored blackout request: exactly when it can be erased
    unserved, and how soon it is served otherwise. */
module PipelineRequests {
  import opened PipelineModel
  import opened PipelineBooks
  import opened PipelineShutdown
  import opened PipelineContexts
  import opened PipelineHandshake
  import opened PipelineCycles
  import opened PipelineProgress
  import opened PipelineRuns

  /** The handler neither replies nor gives up. */
  function WhileWaiting(): Region {
    (s: State, a: Action) => Works(a)
  }

  /** A re-init is under way or will be, without a command after this one. */
  predicate Doomed(s: State) {
    || s.main.ClearBlackout? || Reviving(s.main)
    || (s.flags.resumeReq && !s.flags.shutdown && !s.main.ClearResume? && !Closing(s.main))
  }

  // ---- a request that is not doomed stays ----

  ghost predicate Spared(s: State) {
    s.control.BlackoutWait? && s.flags.blackoutReq && !Doomed(s)
  }

  lemma SparedStep(c: Config, s: State, a: Action)
    requires Cycled(s) && Spared(s) && Enabled(c, s, a) && Works(a)
    ensures Spared(Apply(c, s, a))
  {
    match a
    case MainStep(ok) =>
      if Flowing(s.main) {
        FlowShape(c, s);
        FlowNeverRevives(c, s, ok);
      } else if Blacking(s.main) {
        BlackoutShape(c, s);
      } else if Closing(s.main) {
        ClosingShape(c, s);
      } else {
        ReviveShape(c, s, ok);
      }
    case WorkerStep(i) =>
  }

  lemma FlowNeverRevives(c: Config, s: State, ok: bool)
    requires Flowing(s.main) && MainEnabled(c, s)
    ensures !MainNext(c, s, ok).main.ClearBlackout? && !Reviving(MainNext(c, s, ok).main)
  {
  }

  lemma {:induction false} SparedRun(c: Config, s: State, acts: seq<Action>)
    requires ValidConfig(c) && Inv(c, s) && Spared(s) && Stays(c, WhileWaiting(), s, acts)
    ensures Spared(End(c, s, acts))
    decreases |acts|
  {
    if acts != [] {
      InvStep(c, s, acts[0]);
      SparedStep(c, s, acts[0]);
      SparedRun(c, Apply(c, s, acts[0]), acts[1..]);
    }
  }

  // ---- the way to the dark ----

  /** On the way to announcing the dark, once a blackout request is stored. */
  predicate Heading(m: Main) {
    || Flowing(m) || m.ClearResume? || m.ClearHandshake? || m.Drain? || m.DrainRelease? || m.Destroy?
  }

  /** Steps of the main thread left before the dark is announced; a frame still
      to be submitted counts for the six steps it adds to the drain. */
  function MainRank(c: Config, m: Main): nat {
    var N := c.threads;
    match m
    case Destroy(k) => if k < N then N - k + 1 else 1
    case Drain => N + 2
    case DrainRelease(_) => N + 2
    case ClearHandshake => N + 3
    case CheckBlackout => N + 4
    case Head => N + 5
    case Submit(site, _) => N + 4 + 8 * Frames(c, site)
    case Acquire(site) => N + 5 + 8 * Frames(c, site)
    case Recycle(_) => N + 14
    case Publish(_) => N + 15
    case Show(_) => N + 16
    case WaitResult => N + 17
    case ClearResume => 9 * N + 14
    case _ => 0
  }

  /** Frames left to submit at a site. */
  function Frames(c: Config, site: Site): nat {
    match site
    case Prefill(k) => if k < c.threads then c.threads - k else 1
    case Refill(k) => if k < c.threads then c.threads - k else 1
    case Steady => 1
  }

  function HeadingRank(c: Config, s: State): nat {
    MainRank(c, s.main) + Rank(s)
  }

  lemma {:induction false} QueueRankSnoc(q: seq<Token>, t: Token)
    ensures QueueRank(q + [t]) == QueueRank(q) + if t.Work? then 6 else 1
  {
    if q == [] {
      assert q + [t] == [t];
    } else {
      assert (q + [t])[1..] == q[1..] + [t];
      QueueRankSnoc(q[1..], t);
    }
  }

  lemma SubmitRank(c: Config, s: State)
    requires s.main.Submit?
    ensures HeadingRank(c, FlowNext(c, s)) < HeadingRank(c, s)
  {
    QueueRankSnoc(s.flow.inferQ, Work(Job(s.main.buf, s.flow.frameCounter)));
  }

  lemma FlowRank(c: Config, s: State)
    requires ValidConfig(c) && Flowing(s.main) && s.flags.blackoutReq && MainEnabled(c, s)
    ensures var t := FlowNext(c, s); !t.main.StopControl? ==> HeadingRank(c, t) < HeadingRank(c, s)
  {
    if s.main.Submit? {
      SubmitRank(c, s);
    }
  }

  lemma BlackoutRank(c: Config, s: State)
    requires ValidConfig(c) && Blacking(s.main) && Heading(s.main) && MainEnabled(c, s)
    ensures HeadingRank(c, BlackoutNext(c, s)) < HeadingRank(c, s)
  {
  }

  /** Each step of the main thread brings the dark nearer, unless a shutdown intervenes. */
  lemma HeadingMain(c: Config, s: State, ok: bool)
    requires ValidConfig(c) && Heading(s.main) && s.flags.blackoutReq && MainEnabled(c, s)
    ensures var t := MainNext(c, s, ok);
      && (t.main.AnnounceDark? || Heading(t.main) || (t.main.StopControl? && s.flags.shutdown))
      && (!t.main.StopControl? ==> HeadingRank(c, t) < HeadingRank(c, s))
      && t.flags.blackoutReq && t.flags.shutdown == s.flags.shutdown && t.control == s.control
      && (s.main.ClearResume? || t.flags.resumeReq == s.flags.resumeReq)
  {
    if Flowing(s.main) {
      FlowRank(c, s);
    } else if Blacking(s.main) {
      BlackoutRank(c, s);
    }
  }

  lemma HeadingStep(c: Config, s: State, a: Action)
    requires ValidConfig(c) && Heading(s.main) && s.flags.blackoutReq && Enabled(c, s, a)
    ensures var t := Apply(c, s, a);
      && (Works(a) && !t.main.StopControl? ==> HeadingRank(c, t) < HeadingRank(c, s))
      && (!Works(a) ==> HeadingRank(c, t) == HeadingRank(c, s))
      && (t.main.AnnounceDark? || Heading(t.main) || (t.main.StopControl? && s.flags.shutdown))
      && t.flags.blackoutReq
  {
    match a
    case MainStep(ok) => HeadingMain(c, s, ok);
    case WorkerStep(i) => WorkerStepsDecrease(s, i);
    case _ =>
  }

  predicate Bound(s: State) {
    Heading(s.main) && s.flags.blackoutReq
  }

  function WhileHeading(): Region {
    (s: State, a: Action) => Bound(s)
  }

  lemma {:induction false} HeadingEnds(c: Config, s: State, acts: seq<Action>)
    requires ValidConfig(c) && Stays(c, WhileHeading(), s, acts) && (acts == [] ==> Bound(s))
    ensures WorkCount(acts) <= HeadingRank(c, s)
    ensures var t := End(c, s, acts);
      (t.main.AnnounceDark? || Heading(t.main) || (t.main.StopControl? && t.flags.shutdown)) && t.flags.blackoutReq
    decreases |acts|
  {
    if acts != [] {
      assert Bound(s);
      var t := Apply(c, s, acts[0]);
      HeadingStep(c, s, acts[0]);
      if Bound(t) {
        HeadingEnds(c, t, acts[1..]);
      } else {
        assert acts[1..] == [];
      }
    }
  }

  lemma HeadingBound(c: Config, s: State)
    requires ValidConfig(c) && Inv(c, s) && Heading(s.main)
    ensures HeadingRank(c, s) <= 15 * c.threads + 14
  {
    QueueRankIs(s.flow.inferQ);
    CrewRankBound(s.flow.workers);
    CountAll(s.flow.resultQ);
  }

  /** On the way to the dark the main thread can step, or some worker can. */
  lemma HeadingMoves(c: Config, s: State) returns (a: Action)
    requires ValidConfig(c) && Inv(c, s) && Heading(s.main)
    ensures Enabled(c, s, a) && (a == MainStep(true) || a.WorkerStep?)
  {
    if MainEnabled(c, s) {
      a := MainStep(true);
    } else {
      if s.main.Acquire? {
        AcquireNeverBlocks(c, s);
      } else {
        WaitingIsAnswered(c, s);
      }
      var i: nat :| WorkerEnabled(s, i);
      a := WorkerStep(i);
    }
  }

  /** A stored blackout request main is heading for is served: however the threads
      interleave, after at most 15 * N + 14 steps of main and workers, none of
      which can be missing, the dark is announced or a shutdown has been noticed. */
  lemma RequestIsServed(c: Config, s: State, acts: seq<Action>)
    requires ValidConfig(c) && Reachable(c, s) && Bound(s) && Stays(c, WhileHeading(), s, acts)
    ensures WorkCount(acts) <= 15 * c.threads + 14
    ensures var t := End(c, s, acts);
      && (t.main.AnnounceDark? || (t.main.StopControl? && t.flags.shutdown) || Heading(t.main))
      && (Heading(t.main) ==> MainEnabled(c, t) || exists i: nat :: WorkerEnabled(t, i))
      && (t.main.AnnounceDark? && t.control.BlackoutWait? ==> Enabled(c, MainNext(c, t, true), ControlStep))
  {
    ReachableInv(c, s);
    HeadingEnds(c, s, acts);
    HeadingBound(c, s);
    InvRun(c, s, acts);
    var t := End(c, s, acts);
    if Heading(t.main) {
      var a := HeadingMoves(c, t);
    }
  }

  // ---- a doomed request can be erased ----

  /** A run without the control thread that ends in the given place. */
  ghost predicate Leads(c: Config, s: State, acts: seq<Action>, t: State) {
    Stays(c, WhileWaiting(), s, acts) && End(c, s, acts) == t && t.control == s.control
  }

  lemma LeadsOn(c: Config, s: State, a: Action, acts: seq<Action>, t: State)
    requires Enabled(c, s, a) && Works(a) && Apply(c, s, a).control == s.control && Leads(c, Apply(c, s, a), acts, t)
    ensures Leads(c, s, [a] + acts, t)
  {
    StaysOne(c, WhileWaiting(), s, a);
    StaysAppend(c, WhileWaiting(), s, [a], acts);
  }

  lemma {:induction false} ReachDark(c: Config, s: State) returns (acts: seq<Action>, t: State)
    requires ValidConfig(c) && Inv(c, s) && Bound(s) && !s.flags.shutdown && s.flags.resumeReq && !s.main.ClearResume?
    ensures Leads(c, s, acts, t) && Inv(c, t) && t.main.AnnounceDark? && t.flags.resumeReq && !t.flags.shutdown
    decreases HeadingRank(c, s)
  {
    var a := HeadingMoves(c, s);
    var u := Apply(c, s, a);
    InvStep(c, s, a);
    HeadingStep(c, s, a);
    HeadingKeeps(c, s, a);
    if u.main.AnnounceDark? {
      acts, t := [], u;
    } else {
      acts, t := ReachDark(c, u);
    }
    LeadsOn(c, s, a, acts, t);
    acts := [a] + acts;
  }

  lemma HeadingKeeps(c: Config, s: State, a: Action)
    requires ValidConfig(c) && Bound(s) && !s.main.ClearResume? && Enabled(c, s, a) && Works(a)
    ensures var t := Apply(c, s, a);
      t.flags.resumeReq == s.flags.resumeReq && t.flags.shutdown == s.flags.shutdown && t.control == s.control
      && !t.main.ClearResume?
  {
    match a
    case MainStep(ok) =>
      HeadingMain(c, s, ok);
      NotClearing(c, s, ok);
    case WorkerStep(i) =>
  }

  lemma NotClearing(c: Config, s: State, ok: bool)
    requires Heading(s.main) && !s.main.ClearResume? && MainEnabled(c, s)
    ensures !MainNext(c, s, ok).main.ClearResume?
  {
  }

  function ReviveRank(c: Config, m: Main): nat {
    var N := c.threads;
    match m
    case AnnounceDark => 2 * N + 9
    case DarkShutdown => 2 * N + 8
    case DarkResume => 2 * N + 7
    case LeaveDark => 2 * N + 6
    case Init => 2 * N + 5
    case Dup(k) => if k < N then 2 * N - k + 4 else N + 4
    case Assign(k) => if k < N then N - k + 2 else 2
    case AnnounceResume => 1
    case _ => 0
  }

  /** In the dark with a request pending, or re-initialising, main moves on to clear the flag. */
  lemma {:induction false} ReachClear(c: Config, s: State) returns (acts: seq<Action>, t: State)
    requires |s.npu.ctxs| > 0 && (Reviving(s.main) || (InDark(s.main) && s.flags.resumeReq && !s.flags.shutdown))
    ensures Leads(c, s, acts, t) && t.main.ClearBlackout?
    decreases ReviveRank(c, s.main)
  {
    var u := MainNext(c, s, true);
    if u.main.ClearBlackout? {
      acts, t := [], u;
    } else {
      acts, t := ReachClear(c, u);
    }
    LeadsOn(c, s, MainStep(true), acts, t);
    acts := [MainStep(true)] + acts;
  }

  /** The request is erased by a run in which its handler does nothing but wait. */
  ghost predicate ErasedBy(c: Config, s: State, acts: seq<Action>) {
    Stays(c, WhileWaiting(), s, acts) && !End(c, s, acts).flags.blackoutReq
  }

  /** One more step of the main thread erases the request. */
  lemma ClearErases(c: Config, s: State, acts: seq<Action>, t: State)
    requires Leads(c, s, acts, t) && t.main.ClearBlackout?
    ensures ErasedBy(c, s, acts + [MainStep(true)])
  {
    StaysOne(c, WhileWaiting(), t, MainStep(true));
    StaysAppend(c, WhileWaiting(), s, acts, [MainStep(true)]);
  }

  lemma DoomedErased(c: Config, s: State) returns (acts: seq<Action>)
    requires ValidConfig(c) && Inv(c, s) && s.flags.blackoutReq && Doomed(s)
    ensures ErasedBy(c, s, acts)
  {
    var t := s;
    acts := [];
    if Heading(s.main) {
      acts, t := ReachDark(c, s);
    }
    if !t.main.ClearBlackout? {
      var more, u := ReachClear(c, t);
      StaysAppend(c, WhileWaiting(), s, acts, more);
      acts, t := acts + more, u;
    }
    ClearErases(c, s, acts, t);
    acts := acts + [MainStep(true)];
  }

  /** In every run: the request a blackout command is about to store can be
      erased with the handler still waiting exactly when main is clearing the
      flag, is re-initialising, or has a resume request left over to act on. */
  lemma RequestErasedIff(c: Config, s: State)
    requires ValidConfig(c) && Reachable(c, s) && s.control.BlackoutStore?
    ensures (exists acts :: ErasedBy(c, ControlNext(s), acts)) <==> Doomed(s)
  {
    ReachableInv(c, s);
    var t := ControlNext(s);
    InvStep(c, s, ControlStep);
    if Doomed(s) {
      var acts := DoomedErased(c, t);
    } else {
      forall acts
        ensures !ErasedBy(c, t, acts)
      {
        if Stays(c, WhileWaiting(), t, acts) {
          SparedRun(c, t, acts);
        }
      }
    }
  }

  // ---- without a resume timeout ----

  /** Some step of the run is main's. */
  predicate MainMoves(acts: seq<Action>) {
    exists i :: 0 <= i < |acts| && acts[i].MainStep?
  }

  lemma {:induction false} HungRun(c: Config, s: State, acts: seq<Action>)
    requires Hung(s) && Stays(c, WhileWaiting(), s, acts)
    ensures Hung(End(c, s, acts))
    decreases |acts|
  {
    if acts != [] {
      HungOnlyTimesOut(c, s, acts[0]);
      HungRun(c, Apply(c, s, acts[0]), acts[1..]);
    }
  }

  lemma {:induction false} ClearingRun(c: Config, s: State, acts: seq<Action>)
    requires s.control.BlackoutWait? && s.main.ClearBlackout? && !s.flags.active
    requires Stays(c, WhileWaiting(), s, acts) && MainMoves(acts)
    ensures Hung(End(c, s, acts))
    decreases |acts|
  {
    var t := Apply(c, s, acts[0]);
    if acts[0].MainStep? {
      assert Hung(t);
      HungRun(c, t, acts[1..]);
    } else {
      var i :| 0 <= i < |acts| && acts[i].MainStep?;
      assert acts[1..][i - 1].MainStep?;
      ClearingRun(c, t, acts[1..]);
    }
  }

  /** In runs with no resume timeout, once main has moved, a stored request is
      gone exactly if it was stored just as main cleared the flag of the previous
      cycle; its handler is then hung. */
  lemma RequestOutcome(c: Config, s: State, acts: seq<Action>)
    requires ValidConfig(c) && Reachable(c, s) && s.control.BlackoutStore? && !s.past.resumeTimedOut
    requires Stays(c, WhileWaiting(), ControlNext(s), acts) && MainMoves(acts)
    ensures var t := End(c, ControlNext(s), acts);
      && (!t.flags.blackoutReq <==> s.main.ClearBlackout?)
      && (s.main.ClearBlackout? ==> Hung(t))
  {
    ReachableInv(c, s);
    InvStep(c, s, ControlStep);
    if s.main.ClearBlackout? {
      ClearingRun(c, ControlNext(s), acts);
    } else {
      assert !Doomed(s);
      SparedRun(c, ControlNext(s), acts);
    }
  }
}
