/** After a shutdown request the process ends: boundedly many more steps of the
    main thread and the workers, and always one that can be taken. */
module PipelineEnding {
  import opened PipelineModel
  import opened PipelineBooks
  import opened PipelineShutdown
  import opened PipelineContexts
  import opened PipelineHandshake
  import opened PipelineProgress
  import opened PipelineRuns
  import opened PipelineRequests

  /** Steps of the main thread left to the end once a shutdown is requested; a
      frame still to be submitted counts for the six steps it adds to the
      workers' load, a sentinel for its one. */
  function StepsLeft(c: Config, m: Main): nat {
    if Closing(m) then ClosingLeft(c, m)
    else if Flowing(m) then FlowLeft(c, m)
    else if Blacking(m) then BlackoutLeft(c, m)
    else ReviveLeft(c, m)
  }

  function ClosingLeft(c: Config, m: Main): nat {
    var N := c.threads;
    match m
    case StopControl => 4 * N + 4
    case PushSentinels(k) => if k < N then 2 * (N - k) + 2 * N + 3 else 2 * N + 3
    case Join(k) => if k < N then 2 * N - k + 2 else N + 2
    case FinalDestroy(k) => if k < N then N - k + 1 else 1
    case _ => 0
  }

  function FlowLeft(c: Config, m: Main): nat {
    var N := c.threads;
    match m
    case Head => 4 * N + 5
    case Submit(site, _) => 4 * N + 4 + 8 * Frames(c, site)
    case Acquire(site) => 4 * N + 5 + 8 * Frames(c, site)
    case Recycle(_) => 4 * N + 14
    case Publish(_) => 4 * N + 15
    case Show(_) => 4 * N + 16
    case WaitResult => 4 * N + 17
    case _ => 5 * N + 18
  }

  function BlackoutLeft(c: Config, m: Main): nat {
    var N := c.threads;
    match m
    case LeaveDark => 4 * N + 5
    case DarkShutdown => 4 * N + 6
    case DarkResume => 4 * N + 7
    case AnnounceDark => 4 * N + 8
    case Destroy(k) => if k < N then 5 * N - k + 9 else 4 * N + 9
    case ClearHandshake => 5 * N + 11
    case _ => 5 * N + 10
  }

  function ReviveLeft(c: Config, m: Main): nat {
    var N := c.threads;
    match m
    case ClearResume => 12 * N + 6
    case ClearBlackout => 12 * N + 7
    case AnnounceResume => 12 * N + 8
    case Assign(k) => if k < N then 13 * N - k + 9 else 12 * N + 9
    case Dup(k) => if k < N then 14 * N - k + 10 else 13 * N + 10
    case _ => 14 * N + 11
  }

  function EndRank(c: Config, s: State): nat {
    StepsLeft(c, s.main) + Rank(s)
  }

  lemma FlowEnds(c: Config, s: State)
    requires ValidConfig(c) && Flowing(s.main) && s.flags.shutdown && MainEnabled(c, s)
    ensures EndRank(c, FlowNext(c, s)) < EndRank(c, s)
  {
    if s.main.Submit? {
      QueueRankSnoc(s.flow.inferQ, Work(Job(s.main.buf, s.flow.frameCounter)));
    }
  }

  lemma BlackoutEnds(c: Config, s: State)
    requires ValidConfig(c) && Blacking(s.main) && s.flags.shutdown && MainEnabled(c, s)
    ensures EndRank(c, BlackoutNext(c, s)) < EndRank(c, s)
  {
  }

  lemma ReviveEnds(c: Config, s: State, ok: bool)
    requires ValidConfig(c) && !Flowing(s.main) && !Blacking(s.main) && !Closing(s.main)
    ensures EndRank(c, ResumeNext(c, s, ok)) < EndRank(c, s)
  {
  }

  lemma ClosingEnds(c: Config, s: State)
    requires ValidConfig(c) && Closing(s.main) && MainEnabled(c, s)
    ensures EndRank(c, TeardownNext(c, s)) < EndRank(c, s)
  {
    if s.main.PushSentinels? {
      QueueRankSnoc(s.flow.inferQ, Sentinel);
    }
  }

  lemma MainEnds(c: Config, s: State, ok: bool)
    requires ValidConfig(c) && s.flags.shutdown && MainEnabled(c, s)
    ensures EndRank(c, MainNext(c, s, ok)) < EndRank(c, s) && MainNext(c, s, ok).flags.shutdown
  {
    if Flowing(s.main) {
      FlowEnds(c, s);
    } else if Blacking(s.main) {
      BlackoutEnds(c, s);
    } else if Closing(s.main) {
      ClosingEnds(c, s);
    } else {
      ReviveEnds(c, s, ok);
    }
  }

  lemma OtherKeepsRank(c: Config, s: State, a: Action)
    requires !Works(a) && Enabled(c, s, a)
    ensures EndRank(c, Apply(c, s, a)) == EndRank(c, s)
  {
    var t := Apply(c, s, a);
    assert t.main == s.main && t.flow == s.flow;
  }

  lemma ShutdownStays(c: Config, s: State, a: Action)
    requires s.flags.shutdown && Enabled(c, s, a) && !a.MainStep?
    ensures Apply(c, s, a).flags.shutdown
  {
  }

  lemma StepEnds(c: Config, s: State, a: Action)
    requires ValidConfig(c) && s.flags.shutdown && Enabled(c, s, a)
    ensures var t := Apply(c, s, a);
      && t.flags.shutdown
      && (if Works(a) then EndRank(c, t) < EndRank(c, s) else EndRank(c, t) == EndRank(c, s))
  {
    match a
    case MainStep(ok) => MainEnds(c, s, ok);
    case WorkerStep(i) =>
      WorkerStepsDecrease(s, i);
      ShutdownStays(c, s, a);
    case _ =>
      OtherKeepsRank(c, s, a);
      ShutdownStays(c, s, a);
  }

  lemma {:induction false} RunEnds(c: Config, s: State, acts: seq<Action>)
    requires ValidConfig(c) && s.flags.shutdown && Exec(c, s, acts).Some?
    ensures WorkCount(acts) <= EndRank(c, s)
    decreases |acts|
  {
    if acts != [] {
      StepEnds(c, s, acts[0]);
      RunEnds(c, Apply(c, s, acts[0]), acts[1..]);
    }
  }

  lemma {:induction false} QueueRankSplit(q: seq<Token>)
    ensures QueueRank(q) == 6 * QueueCount(AnyJob, q) + SentinelCount(q)
  {
    if q != [] {
      QueueRankSplit(q[1..]);
    }
  }

  lemma RankBound(c: Config, s: State)
    requires Books(c, s) && Shutting(c, s)
    ensures Rank(s) <= 6 * s.flow.inFlight + Pushed(c, s.main) + if s.main.DrainRelease? then 1 else 0
  {
    QueueRankSplit(s.flow.inferQ);
    CrewRankBound(s.flow.workers);
    CountAll(s.flow.resultQ);
  }

  lemma StepsLeftBound(c: Config, m: Main)
    requires ValidConfig(c) && (m.Dup? ==> m.k >= 1)
    ensures StepsLeft(c, m) <= if Closing(m) then 4 * c.threads + 4 else 14 * c.threads + 11
  {
  }

  lemma InFlightBound(c: Config, s: State)
    requires Books(c, s) && Shutting(c, s)
    ensures s.flow.inFlight <= c.threads && (s.main.DrainRelease? ==> s.flow.inFlight < c.threads)
    ensures Pushed(c, s.main) <= if Closing(s.main) then c.threads else 0
  {
  }

  lemma EndBound(c: Config, s: State)
    requires ValidConfig(c) && Books(c, s) && Shutting(c, s)
    requires s.main.Dup? ==> s.main.k >= 1
    ensures EndRank(c, s) <= 20 * c.threads + 11
  {
    RankBound(c, s);
    StepsLeftBound(c, s.main);
    InFlightBound(c, s);
  }

  /** Until the end, main can step, or a worker it waits for, or the command
      handler whose end it waits for. */
  lemma SomethingMoves(c: Config, s: State)
    requires ValidConfig(c) && Inv(c, s) && !s.main.Finished? && !MainEnabled(c, s)
    ensures (exists i: nat :: WorkerEnabled(s, i)) ||
            (s.main.StopControl? && (Enabled(c, s, ControlStep) || Enabled(c, s, ControlTimeout)))
  {
    if s.main.Acquire? {
      AcquireNeverBlocks(c, s);
    } else if s.main.Join? {
      JoiningIsAnswered(c, s);
    } else if !s.main.StopControl? {
      WaitingIsAnswered(c, s);
    }
  }

  /** Once a shutdown is requested, every run has at most 20 * N + 11 more steps
      of main and workers, whatever else is commanded, and the process is either
      finished or can go on. */
  lemma ShutdownEnds(c: Config, s: State, acts: seq<Action>)
    requires ValidConfig(c) && Reachable(c, s) && s.flags.shutdown && Exec(c, s, acts).Some?
    ensures WorkCount(acts) <= 20 * c.threads + 11
    ensures var t := End(c, s, acts);
      || t.main.Finished? || MainEnabled(c, t) || (exists i: nat :: WorkerEnabled(t, i))
      || (t.main.StopControl? && (Enabled(c, t, ControlStep) || Enabled(c, t, ControlTimeout)))
  {
    ReachableInv(c, s);
    EndBound(c, s);
    RunEnds(c, s, acts);
    InvRun(c, s, acts);
    var t := End(c, s, acts);
    if !t.main.Finished? && !MainEnabled(c, t) {
      SomethingMoves(c, t);
    }
  }
}
