/** The blackout/resume handshake between the control thread and the main thread. */
module PipelineHandshake {
  import opened PipelineModel
  import opened PipelineBooks
  import opened PipelineContexts

  /** blackout_active and resume_done against the main thread's position; holds in every run. */
  ghost predicate Announced(c: Config, s: State) {
    && (Dark(s.main) || Reviving(s.main) ==> s.flags.active)
    && (s.flags.active ==>
          || Dark(s.main) || Reviving(s.main)
          || (Closing(s.main) && s.flow.inFlight == 0 && (s.main.StopControl? ==> DeadBelow(s.npu, c.threads))))
    && (Reviving(s.main) || (Blacking(s.main) && !s.main.ClearHandshake?) ==> !s.flags.resumeDone)
    && (Closing(s.main) && s.flags.active ==> !s.flags.resumeDone)
    && (s.control.Stopped? <==> Closing(s.main) && !s.main.StopControl?)
  }

  /** The control thread waits for a re-init that is still to be announced. */
  ghost predicate Awaiting(s: State) {
    s.flags.active && s.flags.resumeReq && !s.flags.resumeDone
  }

  /** The re-init the control thread waited for was announced, and no new blackout began. */
  ghost predicate Answered(s: State) {
    && !s.flags.active && s.flags.resumeDone && s.past.doneCycle == s.past.cycle
    && (s.main.ClearBlackout? || !s.flags.blackoutReq)
    && (s.main.ClearBlackout? || s.main.ClearResume? || Flowing(s.main) || Closing(s.main))
  }

  /** The handshake proper, which a timed-out resume wait breaks. */
  ghost predicate Agreed(s: State) {
    && (Reviving(s.main) || (s.main.LeaveDark? && !s.flags.shutdown) ==>
          s.control.ResumeWait? && s.past.commandCycle == s.past.cycle)
    && (s.flags.resumeReq ==>
          || (s.control.ResumeWait? && s.flags.active)
          || s.main.ClearBlackout? || s.main.ClearResume? || Closing(s.main))
    && (s.control.ResumeStore? ==> s.flags.active && s.past.commandCycle == s.past.cycle)
    && (s.control.ResumeWait? ==>
          s.past.commandCycle == s.past.cycle && (Awaiting(s) || Answered(s)))
  }

  ghost predicate Handshake(c: Config, s: State) {
    Announced(c, s) && (!s.past.resumeTimedOut ==> Agreed(s))
  }

  lemma HandshakeInitially(c: Config)
    ensures Handshake(c, Initial(c))
  {
  }

  /** What destroying every context has achieved by the end of the dark loop. */
  ghost predicate Emptied(c: Config, s: State) {
    s.main.LeaveDark? || s.main.Init? ==> s.flow.inFlight == 0 && DeadBelow(s.npu, c.threads)
  }

  lemma DarkIsEmpty(c: Config, s: State)
    requires Contexts(c, s) && Books(c, s)
    ensures Emptied(c, s)
  {
  }

  lemma AnnouncedRevive(c: Config, s: State, ok: bool)
    requires Announced(c, s) && Emptied(c, s) && MainEnabled(c, s)
    requires !Flowing(s.main) && !Blacking(s.main) && !Closing(s.main)
    ensures Announced(c, ResumeNext(c, s, ok))
  {
    ReviveShape(c, s, ok);
  }

  lemma AnnouncedBlackout(c: Config, s: State)
    requires Announced(c, s) && Emptied(c, s) && MainEnabled(c, s) && Blacking(s.main)
    ensures Announced(c, BlackoutNext(c, s))
  {
    BlackoutShape(c, s);
  }

  lemma AnnouncedMain(c: Config, s: State, ok: bool)
    requires Announced(c, s) && Emptied(c, s) && MainEnabled(c, s)
    ensures Announced(c, MainNext(c, s, ok))
  {
    if Flowing(s.main) {
      FlowShape(c, s);
    } else if Blacking(s.main) {
      AnnouncedBlackout(c, s);
    } else if Closing(s.main) {
      ClosingShape(c, s);
    } else {
      AnnouncedRevive(c, s, ok);
    }
  }

  lemma ClosingShape(c: Config, s: State)
    requires Closing(s.main) && MainEnabled(c, s)
    ensures var t := TeardownNext(c, s);
      && t.flags == s.flags && t.flow.inFlight == s.flow.inFlight && Closing(t.main) && !t.main.StopControl?
      && t.control == (if s.main.StopControl? then Stopped else s.control)
  {
  }

  lemma BlackoutShape(c: Config, s: State)
    requires Blacking(s.main) && MainEnabled(c, s)
    ensures var t := BlackoutNext(c, s);
      && (t.main.StopControl? <==> s.main.LeaveDark? && s.flags.shutdown)
      && (t.main.StopControl? ==> t.flow == s.flow && t.npu == s.npu)
      && (s.main.ClearHandshake? ==> t.flags == s.flags.(active := false, resumeDone := false))
      && (s.main.AnnounceDark? ==> t.flags == s.flags.(active := true))
      && (!s.main.ClearHandshake? && !s.main.AnnounceDark? ==> t.flags == s.flags)
      && t.control == s.control
      && (Blacking(t.main) || t.main.StopControl? || t.main.Init?)
      && (t.main.Init? <==> s.main.LeaveDark? && !s.flags.shutdown)
      && (t.main.LeaveDark? <==>
            (s.main.DarkResume? && s.flags.resumeReq) || (s.main.DarkShutdown? && s.flags.shutdown))
      && (Dark(t.main) <==> (Dark(s.main) && !s.main.LeaveDark?) || s.main.AnnounceDark?)
      && !t.main.ClearHandshake?
      && t.past.commandCycle == s.past.commandCycle && t.past.doneCycle == s.past.doneCycle
      && t.past.cycle == s.past.cycle + (if s.main.AnnounceDark? then 1 else 0)
      && t.past.resumeTimedOut == s.past.resumeTimedOut
  {
  }

  lemma ReviveShape(c: Config, s: State, ok: bool)
    requires Reviving(s.main) || s.main.ClearBlackout? || s.main.ClearResume?
    ensures var t := ResumeNext(c, s, ok);
      && t.flow == s.flow && t.control == s.control
      && (t.main.StopControl? ==> s.main.Init? && t.npu == s.npu && t.flags == s.flags.(shutdown := true))
      && (s.main.AnnounceResume? ==>
            t.main.ClearBlackout? && t.flags == s.flags.(active := false, inference := true, resumeDone := true))
      && (s.main.ClearBlackout? ==> t.main.ClearResume? && t.flags == s.flags.(blackoutReq := false))
      && (s.main.ClearResume? ==> t.main.Acquire? && t.flags == s.flags.(resumeReq := false))
      && (Reviving(s.main) && !s.main.AnnounceResume? ==>
            Reviving(t.main) || t.main.StopControl?)
      && (Reviving(t.main) ==> t.flags == s.flags)
      && t.past.commandCycle == s.past.commandCycle && t.past.cycle == s.past.cycle
      && t.past.doneCycle == (if s.main.AnnounceResume? then s.past.cycle else s.past.doneCycle)
      && t.past.resumeTimedOut == s.past.resumeTimedOut
  {
  }

  lemma FlowShape(c: Config, s: State)
    requires Flowing(s.main) && MainEnabled(c, s)
    ensures var t := FlowNext(c, s);
      && t.flags == s.flags && t.control == s.control
      && (Flowing(t.main) || t.main.StopControl? || (t.main.ClearHandshake? && s.flags.blackoutReq))
      && t.past.commandCycle == s.past.commandCycle && t.past.cycle == s.past.cycle
      && t.past.doneCycle == s.past.doneCycle && t.past.resumeTimedOut == s.past.resumeTimedOut
  {
  }

  lemma AgreedMain(c: Config, s: State, ok: bool)
    requires Announced(c, s) && Agreed(s) && MainEnabled(c, s)
    ensures Agreed(MainNext(c, s, ok))
  {
    if Flowing(s.main) {
      FlowShape(c, s);
    } else if Blacking(s.main) {
      BlackoutShape(c, s);
    } else if Closing(s.main) {
    } else {
      ReviveShape(c, s, ok);
    }
  }

  lemma HandshakeMain(c: Config, s: State, ok: bool)
    requires ValidConfig(c) && Handshake(c, s) && Contexts(c, s) && Books(c, s) && MainEnabled(c, s)
    ensures Handshake(c, MainNext(c, s, ok))
  {
    DarkIsEmpty(c, s);
    AnnouncedMain(c, s, ok);
    TimeoutsOnlyGrow(c, s, ok);
    if !s.past.resumeTimedOut {
      AgreedMain(c, s, ok);
    }
  }

  lemma HandshakeOther(c: Config, s: State, a: Action)
    requires ValidConfig(c) && Handshake(c, s) && Contexts(c, s) && Books(c, s) && Enabled(c, s, a) && !a.MainStep?
    ensures Handshake(c, Apply(c, s, a))
  {
  }

  lemma HandshakeStep(c: Config, s: State, a: Action)
    requires ValidConfig(c) && Handshake(c, s) && Contexts(c, s) && Books(c, s) && Enabled(c, s, a)
    ensures Handshake(c, Apply(c, s, a))
  {
    match a
    case MainStep(ok) => HandshakeMain(c, s, ok);
    case _ => HandshakeOther(c, s, a);
  }

  lemma TimeoutsOnlyGrow(c: Config, s: State, ok: bool)
    requires MainEnabled(c, s)
    ensures MainNext(c, s, ok).past.resumeTimedOut == s.past.resumeTimedOut
  {
    if Flowing(s.main) {
      FlowShape(c, s);
    } else if Blacking(s.main) {
      BlackoutShape(c, s);
    } else if Closing(s.main) {
    } else {
      ReviveShape(c, s, ok);
    }
  }

  /** The handler of a blackout never sees a re-init, while no resume wait timed out. */
  lemma BlackoutSeesNoRevival(c: Config, s: State)
    requires Handshake(c, s) && s.control.BlackoutWait? && !s.past.resumeTimedOut
    ensures !Reviving(s.main)
  {
  }

  /** Main leaves the dark loop for a re-init exactly when no shutdown was
      requested and, while no resume wait timed out, on a command still waiting. */
  lemma LeavingDarkMeans(c: Config, s: State, ok: bool)
    requires Handshake(c, s) && s.main.LeaveDark?
    ensures MainNext(c, s, ok).main.Init? <==> !s.flags.shutdown
    ensures MainNext(c, s, ok).main.StopControl? <==> s.flags.shutdown
    ensures MainNext(c, s, ok).main.Init? && !s.past.resumeTimedOut ==>
              s.control.ResumeWait? && s.past.commandCycle == s.past.cycle
  {
    BlackoutShape(c, s);
  }

  /** A blackout handler whose request was erased: nothing can answer it any more. */
  ghost predicate Hung(s: State) {
    && s.control.BlackoutWait? && !s.flags.blackoutReq && !s.flags.active
    && (s.main.ClearResume? || Flowing(s.main) || Closing(s.main))
  }

  /** A waiting blackout handler still has its request stored, or is hung. */
  ghost predicate Requested(s: State) {
    s.control.BlackoutWait? ==> s.flags.blackoutReq || Hung(s)
  }

  /** Once hung, a handler stays hung until it times out; the ok reply is out of reach. */
  lemma HungOnlyTimesOut(c: Config, s: State, a: Action)
    requires Hung(s) && Enabled(c, s, a) && !a.ControlTimeout?
    ensures Hung(Apply(c, s, a)) && !a.ControlStep?
  {
    match a
    case MainStep(ok) =>
      if Flowing(s.main) {
        FlowShape(c, s);
      } else if Closing(s.main) {
        ClosingShape(c, s);
      } else {
        ReviveShape(c, s, ok);
      }
    case _ =>
  }

  lemma RequestedMain(c: Config, s: State, ok: bool)
    requires Announced(c, s) && Requested(s) && MainEnabled(c, s)
    ensures var t := MainNext(c, s, ok);
      && Requested(t)
      && (s.control.BlackoutWait? && s.flags.blackoutReq && t.control.BlackoutWait? ==>
          (Hung(t) <==> s.main.ClearBlackout?))
  {
    if Flowing(s.main) {
      FlowShape(c, s);
    } else if Blacking(s.main) {
      BlackoutShape(c, s);
    } else if Closing(s.main) {
      ClosingShape(c, s);
    } else {
      ReviveShape(c, s, ok);
    }
  }

  /** The request of a waiting handler disappears exactly when the main thread
      clears the flag of the cycle it just finished. */
  lemma RequestedStep(c: Config, s: State, a: Action)
    requires Announced(c, s) && Requested(s) && Enabled(c, s, a)
    ensures Requested(Apply(c, s, a))
    ensures s.control.BlackoutWait? && s.flags.blackoutReq && Apply(c, s, a).control.BlackoutWait? ==>
              (Hung(Apply(c, s, a)) <==> a.MainStep? && s.main.ClearBlackout?)
  {
    match a
    case MainStep(ok) => RequestedMain(c, s, ok);
    case _ =>
  }
}
