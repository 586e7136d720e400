/** The invariants over whole runs, and the runs that show what the code does not promise. */
module PipelineRuns {
  import opened Options
  import opened PipelineModel
  import opened PipelineBooks
  import opened PipelineShutdown
  import opened PipelineContexts
  import opened PipelineHandshake
  import opened PipelineCycles
  import opened PipelineLeaks
  import opened PipelineProgress

  ghost predicate Inv(c: Config, s: State) {
    Books(c, s) && Shutting(c, s) && Contexts(c, s) && Handshake(c, s) && Requested(s) && Cycled(s) && Leakless(c, s)
  }

  lemma InvStep(c: Config, s: State, a: Action)
    requires ValidConfig(c) && Inv(c, s) && Enabled(c, s, a)
    ensures Inv(c, Apply(c, s, a))
  {
    BooksStep(c, s, a);
    ShuttingStep(c, s, a);
    ContextsStep(c, s, a);
    HandshakeStep(c, s, a);
    RequestedStep(c, s, a);
    CycledStep(c, s, a);
    LeaklessStep(c, s, a);
  }

  lemma {:induction false} InvRun(c: Config, s: State, acts: seq<Action>)
    requires ValidConfig(c) && Inv(c, s)
    ensures Exec(c, s, acts).Some? ==> Inv(c, Exec(c, s, acts).value)
    decreases |acts|
  {
    if acts != [] && Enabled(c, s, acts[0]) {
      InvStep(c, s, acts[0]);
      InvRun(c, Apply(c, s, acts[0]), acts[1..]);
    }
  }

  lemma ReachableInv(c: Config, s: State)
    requires ValidConfig(c) && Reachable(c, s)
    ensures Inv(c, s)
  {
    var acts :| Exec(c, Initial(c), acts) == Some(s);
    BooksInitially(c);
    ShuttingInitially(c);
    ContextsInitially(c);
    HandshakeInitially(c);
    CycledInitially(c);
    LeaklessInitially(c);
    InvRun(c, Initial(c), acts);
  }

  /** In every interleaving, over any number of blackout cycles and a shutdown
      at any point, no worker is on the NPU path with a stale handle, and its
      context exists exactly when its last duplication succeeded. */
  lemma NpuPathIsSafe(c: Config, s: State)
    requires ValidConfig(c) && Reachable(c, s)
    ensures ContextSafe(s)
    ensures s.npu.badDup == {} ==> forall i :: 0 <= i < |s.flow.workers| && s.flow.workers[i].Inferring? ==>
              s.flow.workers[i].ctx in s.npu.alive
  {
    ReachableInv(c, s);
    SafeUse(c, s);
  }

  /** Every buffer has exactly one owner; in_flight counts the jobs queued, held
      and answered; pool.acquire() finds a free buffer whenever it is called. */
  lemma BuffersAreOwnedOnce(c: Config, s: State)
    requires ValidConfig(c) && Reachable(c, s)
    ensures forall b: nat :: b < c.bufs ==> Owners(b, s) == 1
    ensures s.flow.inFlight == Pending(AnyJob, s.flow) <= c.threads
    ensures s.main.Acquire? ==> s.flow.free != []
  {
    ReachableInv(c, s);
    if s.main.Acquire? {
      AcquireNeverBlocks(c, s);
    }
  }

  /** Every captured frame is in exactly one place: displayed, drained by a
      blackout, or in flight; frames not yet captured are nowhere.  The
      publisher was offered exactly the displayed frames, in that order. */
  lemma FramesAreConserved(c: Config, s: State)
    requires ValidConfig(c) && Reachable(c, s)
    ensures forall f: nat :: Places(f, s) == if f < s.flow.frameCounter then 1 else 0
    ensures forall f: nat :: Occurs(f, s.past.published) <= 1
    ensures s.past.published <= s.past.displayed
    ensures !s.main.Publish? ==> s.past.published == s.past.displayed
  {
    ReachableInv(c, s);
    forall f: nat
      ensures Occurs(f, s.past.published) <= 1
    {
      if s.main.Publish? {
        OccursSnoc(f, s.past.published, s.main.job.frame);
      } else {
        assert s.past.displayed == s.past.published;
      }
      assert Places(f, s) <= 1;
    }
  }

  /** A step that destroys a context finds nothing in flight, or every worker gone. */
  lemma ContextsDieIdle(c: Config, s: State, a: Action)
    requires ValidConfig(c) && Reachable(c, s) && Enabled(c, s, a)
    requires !(s.npu.alive <= Apply(c, s, a).npu.alive)
    ensures s.flow.inFlight == 0 || forall i :: 0 <= i < |s.flow.workers| ==> s.flow.workers[i].Exited?
  {
    ReachableInv(c, s);
  }

  /** In every run the contexts that exist are main's own, and none is left once
      the dark is announced or the process is finished. */
  lemma NoContextLeaks(c: Config, s: State)
    requires ValidConfig(c) && Reachable(c, s)
    ensures forall h :: h in s.npu.alive ==> h in s.npu.ctxs
    ensures InDark(s.main) || s.main.Init? || s.main.Finished? ==> s.npu.alive == {}
  {
    ReachableInv(c, s);
    if InDark(s.main) || s.main.Init? || s.main.Finished? {
      NoneLeft(c, s.npu);
    }
  }

  /** Teardown hands rknn_destroy a context that exists, except exactly when the
      pipeline was drained before, that is when it comes from a blackout, or when
      the context's duplication had failed. */
  lemma DestroyedTwiceIff(c: Config, s: State)
    requires ValidConfig(c) && Reachable(c, s) && s.main.FinalDestroy? && s.main.k < c.threads
    ensures |s.npu.ctxs| == c.threads
    ensures s.npu.ctxs[s.main.k] !in s.npu.alive <==> s.flow.inFlight == 0 || s.main.k in s.npu.badDup
  {
    ReachableInv(c, s);
  }

  /** The ok replies, in every run.  A blackout ok finds the pipeline drained,
      and every context destroyed exactly when no re-init has created one; no
      re-init runs at all while no resume wait timed out.  A resume ok answers
      the command of the dark period that was just ended. */
  lemma RepliesAreTrue(c: Config, s: State)
    requires ValidConfig(c) && Reachable(c, s) && Enabled(c, s, ControlStep)
    ensures s.control.BlackoutWait? ==> s.flow.inFlight == 0 && (AllDestroyed(c, s.npu) <==> !Rebuilding(s.main))
    ensures s.control.BlackoutWait? && !s.past.resumeTimedOut ==> !Reviving(s.main)
    ensures s.control.ResumeWait? ==>
              s.past.doneCycle == s.past.commandCycle == s.past.cycle && !Dark(s.main) && !Reviving(s.main)
  {
    ReachableInv(c, s);
    if s.control.BlackoutWait? {
      BlackoutReplyMeans(c, s);
      if !s.past.resumeTimedOut {
        BlackoutSeesNoRevival(c, s);
      }
    } else if s.control.ResumeWait? {
      ResumeReplyMeans(c, s);
    }
  }

  /** Leaving the dark loop: for a re-init exactly when no shutdown was requested,
      and then, while no resume wait timed out, for a command of this dark period. */
  lemma DarknessEndsOnCommand(c: Config, s: State, ok: bool)
    requires ValidConfig(c) && Reachable(c, s) && s.main.LeaveDark?
    ensures MainNext(c, s, ok).main.Init? <==> !s.flags.shutdown
    ensures MainNext(c, s, ok).main.Init? && !s.past.resumeTimedOut ==>
              s.control.ResumeWait? && s.past.commandCycle == s.past.cycle
  {
    ReachableInv(c, s);
    LeavingDarkMeans(c, s, ok);
  }

  lemma {:induction false} UnbiddenRun(c: Config, s: State, acts: seq<Action>)
    requires ValidConfig(c) && Inv(c, s) && Stays(c, WhileDark(), s, acts)
    requires InDark(s.main) ==> Unbidden(s)
    requires s.main.Init? ==> s.past.commandCycle == s.past.cycle
    ensures OnCommand(c, s, acts)
    decreases |acts|
  {
    if acts != [] {
      InvStep(c, s, acts[0]);
      UnbiddenStep(c, s, acts[0]);
      UnbiddenRun(c, Apply(c, s, acts[0]), acts[1..]);
    }
  }

  /** In every run: a dark period can end in a re-init only on a command of its
      own exactly when, as it is announced, no resume request is left over (or a
      shutdown is already requested). */
  lemma DarkEndsOnCommandIff(c: Config, s: State)
    requires ValidConfig(c) && Reachable(c, s) && s.main.AnnounceDark?
    ensures (forall acts :: OnCommand(c, s, acts)) <==> !s.flags.resumeReq || s.flags.shutdown
  {
    ReachableInv(c, s);
    if !s.flags.resumeReq || s.flags.shutdown {
      forall acts
        ensures OnCommand(c, s, acts)
      {
        if Stays(c, WhileDark(), s, acts) {
          UnbiddenRun(c, s, acts);
        }
      }
    } else {
      StaleLeaves(c, s);
    }
  }

  lemma {:induction false} AttendedRun(c: Config, s: State, acts: seq<Action>)
    requires ValidConfig(c) && Inv(c, s) && Stays(c, WhileDown(), s, acts)
    requires InDark(s.main) || Reviving(s.main) ==> Attended(s)
    ensures Honest(c, End(c, s, acts))
    decreases |acts|
  {
    if acts == [] {
      if s.control.BlackoutWait? && Enabled(c, s, ControlStep) {
        BlackoutReplyMeans(c, s);
      }
    } else {
      assert Down(s, acts[0]);
      InvStep(c, s, acts[0]);
      AttendedStep(c, s, acts[0]);
      AttendedRun(c, Apply(c, s, acts[0]), acts[1..]);
    }
  }

  /** In every run: no blackout ok of a dark period, re-init included, is given
      while a context exists, exactly under the same condition; runs in which a
      resume wait times out during that period are not considered. */
  lemma BlackoutOkIsHonestIff(c: Config, s: State)
    requires ValidConfig(c) && Reachable(c, s) && s.main.AnnounceDark?
    ensures (forall acts :: Stays(c, WhileDown(), s, acts) ==> Honest(c, End(c, s, acts))) <==>
            !s.flags.resumeReq || s.flags.shutdown
  {
    ReachableInv(c, s);
    if !s.flags.resumeReq || s.flags.shutdown {
      forall acts | Stays(c, WhileDown(), s, acts)
        ensures Honest(c, End(c, s, acts))
      {
        AttendedRun(c, s, acts);
      }
    } else {
      var acts := StaleLies(c, s);
    }
  }

  lemma ShutdownStep(c: Config, s: State, a: Action)
    requires InDark(s.main) && s.flags.shutdown && Enabled(c, s, a)
    ensures var t := Apply(c, s, a); t.flags.shutdown && !Reviving(t.main)
  {
    if a.MainStep? {
      BlackoutShape(c, s);
    }
  }

  lemma {:induction false} ShutdownRun(c: Config, s: State, acts: seq<Action>)
    requires ValidConfig(c) && Inv(c, s) && Stays(c, WhilePeriod(), s, acts)
    requires s.flags.shutdown && !Reviving(s.main)
    ensures Honest(c, End(c, s, acts))
    decreases |acts|
  {
    if acts == [] {
      if s.control.BlackoutWait? && Enabled(c, s, ControlStep) {
        BlackoutReplyMeans(c, s);
      }
    } else {
      InvStep(c, s, acts[0]);
      ShutdownStep(c, s, acts[0]);
      ShutdownRun(c, Apply(c, s, acts[0]), acts[1..]);
    }
  }

  /** With the timeouts of this period's own resume commands allowed as well, no
      condition short of a shutdown keeps every blackout ok honest. */
  lemma BlackoutOkIsAlwaysHonestIff(c: Config, s: State)
    requires ValidConfig(c) && Reachable(c, s) && s.main.AnnounceDark?
    ensures (forall acts :: Stays(c, WhilePeriod(), s, acts) ==> Honest(c, End(c, s, acts))) <==> s.flags.shutdown
  {
    ReachableInv(c, s);
    if s.flags.shutdown {
      forall acts | Stays(c, WhilePeriod(), s, acts)
        ensures Honest(c, End(c, s, acts))
      {
        ShutdownRun(c, s, acts);
      }
    } else {
      var acts := TimeoutLies(c, s);
    }
  }

  /** A waiting blackout request is still stored, or can only time out. */
  lemma BlackoutWaitIsDecided(c: Config, s: State)
    requires ValidConfig(c) && Reachable(c, s) && s.control.BlackoutWait?
    ensures s.flags.blackoutReq || (Hung(s) && !Enabled(c, s, ControlStep))
  {
    ReachableInv(c, s);
  }

  /** At the end of the joins every submitted job has been processed. */
  lemma ShutdownLosesNoJob(c: Config, s: State)
    requires ValidConfig(c) && Reachable(c, s) && s.main.FinalDestroy?
    ensures s.flow.inferQ == [] && s.flow.inFlight == |s.flow.resultQ|
    ensures forall i :: 0 <= i < |s.flow.workers| ==> s.flow.workers[i].Exited?
    ensures Pushed(c, s.main) == ExitedCount(s.flow.workers) == c.threads && SentinelCount(s.flow.inferQ) == 0
  {
    ReachableInv(c, s);
    JoinedCleanly(c, s);
  }

  /** While main waits for a result or in a join, some worker can step. */
  lemma NobodyWaitsInVain(c: Config, s: State)
    requires ValidConfig(c) && Reachable(c, s) && !MainEnabled(c, s)
    ensures s.main.WaitResult? || s.main.Drain? || s.main.Join? ==> exists i: nat :: WorkerEnabled(s, i)
  {
    ReachableInv(c, s);
    if s.main.WaitResult? || s.main.Drain? {
      WaitingIsAnswered(c, s);
    } else if s.main.Join? {
      JoiningIsAnswered(c, s);
    }
  }

  /** A blackout drain takes at most six steps of main and workers per thread. */
  lemma DrainIsBounded(c: Config, s: State, acts: seq<Action>)
    requires ValidConfig(c) && Reachable(c, s) && s.main.Drain? && Stays(c, WhileDraining(), s, acts)
    ensures WorkCount(acts) <= 6 * c.threads
  {
    ReachableInv(c, s);
    DrainIsShort(c, s, acts);
  }
}
