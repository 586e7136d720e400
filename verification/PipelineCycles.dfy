/** Which dark period a resume command belongs to, in every run, whether or not
    a resume wait timed out. */
module PipelineCycles {
  import opened PipelineModel
  import opened PipelineBooks
  import opened PipelineContexts
  import opened PipelineHandshake

  /** The re-init that ends the latest dark period was announced, and no new
      blackout was noticed since. */
  ghost predicate Ended(s: State) {
    && !s.flags.active && s.past.doneCycle == s.past.cycle
    && (s.main.ClearBlackout? || Closing(s.main) || ((s.main.ClearResume? || Flowing(s.main)) && !s.flags.blackoutReq))
  }

  /** A resume handler at work belongs to the latest dark period. */
  ghost predicate Current(s: State) {
    && s.past.commandCycle == s.past.cycle
    && (Dark(s.main) || Reviving(s.main) || Ended(s) || (Closing(s.main) && s.flags.active))
  }

  ghost predicate Cycled(s: State) {
    && s.past.commandCycle <= s.past.cycle
    && (s.control.ResumeStore? || s.control.ResumeWait? ==> Current(s))
    && (s.main.LeaveDark? ==> s.flags.resumeReq || s.flags.shutdown)
    && 0 !in s.npu.badDup
  }

  lemma CycledInitially(c: Config)
    ensures Cycled(Initial(c))
  {
  }

  /** Only a re-initialisation touches badDup, and never for context 0. */
  lemma FirstContextChecked(c: Config, s: State, ok: bool)
    requires Contexts(c, s) && MainEnabled(c, s) && 0 !in s.npu.badDup
    ensures 0 !in MainNext(c, s, ok).npu.badDup
  {
    if Flowing(s.main) {
    } else if Blacking(s.main) {
    } else if Closing(s.main) {
    } else {
    }
  }

  lemma CycledMain(c: Config, s: State, ok: bool)
    requires Announced(c, s) && Contexts(c, s) && Cycled(s) && MainEnabled(c, s)
    ensures Cycled(MainNext(c, s, ok))
  {
    FirstContextChecked(c, s, ok);
    if Flowing(s.main) {
      FlowShape(c, s);
    } else if Blacking(s.main) {
      BlackoutShape(c, s);
    } else if Closing(s.main) {
      ClosingShape(c, s);
    } else {
      ReviveShape(c, s, ok);
    }
  }

  lemma CycledStep(c: Config, s: State, a: Action)
    requires Announced(c, s) && Contexts(c, s) && Cycled(s) && Enabled(c, s, a)
    ensures Cycled(Apply(c, s, a))
  {
    match a
    case MainStep(ok) => CycledMain(c, s, ok);
    case _ =>
  }

  /** The ok reply to `resume`: the re-init that set resume_done ended the very
      dark period in which this command was accepted. */
  lemma ResumeReplyMeans(c: Config, s: State)
    requires Announced(c, s) && Cycled(s) && s.control.ResumeWait? && Enabled(c, s, ControlStep)
    ensures s.past.doneCycle == s.past.commandCycle == s.past.cycle
    ensures !s.flags.active && !Dark(s.main) && !Reviving(s.main)
  {
  }

  /** A context of the re-init under way exists. */
  predicate Rebuilding(m: Main) {
    m.Dup? || m.Assign? || m.AnnounceResume?
  }

  ghost predicate AllDestroyed(c: Config, n: Npu) {
    forall i :: 0 <= i < c.threads && i < |n.ctxs| ==> n.ctxs[i] !in n.alive
  }

  /** The ok reply to `blackout`: the pipeline is drained, and every context is
      destroyed exactly when no re-init has created one. */
  lemma BlackoutReplyMeans(c: Config, s: State)
    requires ValidConfig(c) && Announced(c, s) && Cycled(s) && Contexts(c, s) && Books(c, s)
    requires s.control.BlackoutWait? && Enabled(c, s, ControlStep)
    ensures s.flow.inFlight == 0
    ensures AllDestroyed(c, s.npu) <==> !Rebuilding(s.main)
  {
    if Rebuilding(s.main) {
      assert LiveBelow(s.npu, 1);
      assert s.npu.ctxs[0] in s.npu.alive;
    } else {
      assert DeadBelow(s.npu, c.threads);
    }
  }

  // ---- leaving the dark ----

  predicate InDark(m: Main) {
    m.AnnounceDark? || Dark(m)
  }

  function WhileDark(): Region {
    (s: State, a: Action) => InDark(s.main)
  }

  /** If the run leaves the dark for a re-init, a resume command of this dark
      period asked for it. */
  ghost predicate OnCommand(c: Config, s: State, acts: seq<Action>) {
    Stays(c, WhileDark(), s, acts) && End(c, s, acts).main.Init? ==>
      End(c, s, acts).past.commandCycle == End(c, s, acts).past.cycle
  }

  /** No request from before is pending, or a shutdown is. */
  ghost predicate Unbidden(s: State) {
    || s.flags.shutdown
    || (s.main.AnnounceDark? && !s.flags.resumeReq && !s.control.ResumeStore?)
    || (Dark(s.main) && (s.flags.resumeReq || s.control.ResumeStore? ==> s.past.commandCycle == s.past.cycle))
  }

  lemma UnbiddenStep(c: Config, s: State, a: Action)
    requires Announced(c, s) && Cycled(s) && InDark(s.main) && Unbidden(s) && Enabled(c, s, a)
    ensures var t := Apply(c, s, a);
      && (InDark(t.main) ==> Unbidden(t))
      && (t.main.Init? ==> t.past.commandCycle == t.past.cycle)
  {
    match a
    case MainStep(ok) => BlackoutShape(c, s);
    case _ =>
  }

  /** With a stale request pending, three steps of the main thread leave for a re-init. */
  lemma StaleLeaves(c: Config, s: State)
    requires Cycled(s) && s.main.AnnounceDark? && s.flags.resumeReq && !s.flags.shutdown
    ensures !OnCommand(c, s, [MainStep(true), MainStep(true), MainStep(true)])
  {
    var a := [MainStep(true)];
    var t, u := MainNext(c, s, true), MainNext(c, MainNext(c, s, true), true);
    StaysOne(c, WhileDark(), s, a[0]);
    StaysOne(c, WhileDark(), t, a[0]);
    StaysAppend(c, WhileDark(), s, a, a);
    StaysOne(c, WhileDark(), u, a[0]);
    StaysAppend(c, WhileDark(), s, a + a, a);
    assert a + a + a == [MainStep(true), MainStep(true), MainStep(true)];
  }

  // ---- a blackout ok during the re-init ----

  /** Dark or re-initialising, and no resume wait times out. */
  predicate Down(s: State, a: Action) {
    (InDark(s.main) || Reviving(s.main)) && (a.ControlTimeout? ==> !s.control.ResumeWait?)
  }

  function WhileDown(): Region {
    (s: State, a: Action) => Down(s, a)
  }

  /** A blackout ok is given with every context destroyed, if it is given now. */
  ghost predicate Honest(c: Config, s: State) {
    s.control.BlackoutWait? && Enabled(c, s, ControlStep) ==> AllDestroyed(c, s.npu)
  }

  /** While no request from before is pending, the resume handler waits out the re-init. */
  ghost predicate Attended(s: State) {
    || (InDark(s.main) && Unbidden(s) && (s.flags.resumeReq && !s.flags.shutdown ==> s.control.ResumeWait?))
    || (Reviving(s.main) && s.control.ResumeWait?)
  }

  lemma AttendedStep(c: Config, s: State, a: Action)
    requires Announced(c, s) && Cycled(s) && Attended(s) && Enabled(c, s, a) && Down(s, a)
    ensures var t := Apply(c, s, a); InDark(t.main) || Reviving(t.main) ==> Attended(t)
  {
    match a
    case MainStep(ok) =>
      if InDark(s.main) {
        BlackoutShape(c, s);
      } else {
        ReviveShape(c, s, ok);
      }
    case _ =>
  }

  /** Where the control thread can be when main announces the dark. */
  lemma ControlAtDark(c: Config, s: State)
    requires Announced(c, s) && Cycled(s) && s.main.AnnounceDark?
    ensures s.control.Listening? || s.control.BlackoutStore? || s.control.BlackoutWait?
  {
  }

  predicate SameRequests(r: State, s: State) {
    r.flags.resumeReq == s.flags.resumeReq && r.flags.shutdown == s.flags.shutdown
  }

  /** The control thread gets to wait for a blackout before main moves on. */
  lemma WaitsFirst(c: Config, s: State) returns (acts: seq<Action>)
    requires s.main.AnnounceDark? && (s.control.Listening? || s.control.BlackoutStore? || s.control.BlackoutWait?)
    ensures Stays(c, WhileDown(), s, acts)
    ensures var t := End(c, s, acts);
      t.main == s.main && t.control == BlackoutWait && t.npu == s.npu && SameRequests(t, s)
  {
    match s.control
    case Listening =>
      var r := Apply(c, s, Receive(Blackout));
      StaysOne(c, WhileDown(), s, Receive(Blackout));
      StaysOne(c, WhileDown(), r, ControlStep);
      StaysAppend(c, WhileDown(), s, [Receive(Blackout)], [ControlStep]);
      acts := [Receive(Blackout)] + [ControlStep];
    case BlackoutStore =>
      StaysOne(c, WhileDown(), s, ControlStep);
      acts := [ControlStep];
    case BlackoutWait =>
      acts := [];
  }

  /** One step of the main thread on the way to a new context. */
  lemma StaleStep(c: Config, s: State) returns (t: State)
    requires InDark(s.main) || s.main.Init?
    requires s.main.Init? || (s.flags.resumeReq && !s.flags.shutdown)
    ensures Stays(c, WhileDown(), s, [MainStep(true)]) && t == End(c, s, [MainStep(true)]) == MainNext(c, s, true)
  {
    StaysOne(c, WhileDown(), s, MainStep(true));
    t := MainNext(c, s, true);
  }

  /** Four steps of the main thread from announcing the dark to a new context. */
  lemma StaleRebuilds(c: Config, s: State) returns (acts: seq<Action>)
    requires s.main.AnnounceDark? && s.flags.resumeReq && !s.flags.shutdown && |s.npu.ctxs| > 0
    ensures Stays(c, WhileDown(), s, acts)
    ensures var t := End(c, s, acts);
      t.main == Dup(1) && t.control == s.control && t.flags.active && t.npu == Created(s.npu, 0).(badDup := {})
  {
    var a := [MainStep(true)];
    var t := StaleStep(c, s);
    var u := StaleStep(c, t);
    StaysAppend(c, WhileDown(), s, a, a);
    var v := StaleStep(c, u);
    StaysAppend(c, WhileDown(), s, a + a, a);
    var w := StaleStep(c, v);
    StaysAppend(c, WhileDown(), s, a + a + a, a);
    acts := a + a + a + a;
  }

  /** With a stale request pending, some run gives a blackout ok while a context exists. */
  lemma StaleLies(c: Config, s: State) returns (acts: seq<Action>)
    requires ValidConfig(c) && Announced(c, s) && Cycled(s) && Contexts(c, s)
    requires s.main.AnnounceDark? && s.flags.resumeReq && !s.flags.shutdown
    ensures Stays(c, WhileDown(), s, acts) && !Honest(c, End(c, s, acts))
  {
    ControlAtDark(c, s);
    var first := WaitsFirst(c, s);
    var t := End(c, s, first);
    var rest := StaleRebuilds(c, t);
    StaysAppend(c, WhileDown(), s, first, rest);
    acts := first + rest;
    assert End(c, s, acts).npu.ctxs[0] in End(c, s, acts).npu.alive;
  }

  // ---- the same, resume timeouts included ----

  predicate InPeriod(m: Main) {
    InDark(m) || Reviving(m)
  }

  function WhilePeriod(): Region {
    (s: State, a: Action) => InPeriod(s.main)
  }

  /** The dark is announced, and the control thread gets free. */
  lemma GetsFree(c: Config, s: State) returns (acts: seq<Action>)
    requires s.main.AnnounceDark? && (s.control.Listening? || s.control.BlackoutStore? || s.control.BlackoutWait?)
    ensures Stays(c, WhilePeriod(), s, acts)
    ensures var t := End(c, s, acts);
      && t.main.DarkResume? && t.control.Listening? && t.flags.active && t.npu == s.npu
      && t.flags.resumeDone == s.flags.resumeDone && SameRequests(t, s)
  {
    StaysOne(c, WhilePeriod(), s, MainStep(true));
    acts := [MainStep(true)];
    if s.control.BlackoutStore? {
      StaysNext(c, WhilePeriod(), s, acts, ControlStep);
      acts := acts + [ControlStep];
    }
    if !s.control.Listening? {
      StaysNext(c, WhilePeriod(), s, acts, ControlStep);
      acts := acts + [ControlStep];
    }
  }

  /** A resume command whose wait times out, then a blackout command. */
  lemma ResumeThenBlackout(c: Config, s: State) returns (acts: seq<Action>)
    requires s.main.DarkResume? && s.control.Listening? && s.flags.active && !s.flags.resumeDone
    ensures Stays(c, WhilePeriod(), s, acts)
    ensures var t := End(c, s, acts);
      && t.main.DarkResume? && t.control.BlackoutWait? && t.flags.active && t.flags.resumeReq
      && t.npu == s.npu && t.flags.shutdown == s.flags.shutdown
  {
    StaysOne(c, WhilePeriod(), s, Receive(Resume));
    acts := [Receive(Resume)];
    StaysNext(c, WhilePeriod(), s, acts, ControlStep);
    acts := acts + [ControlStep];
    StaysNext(c, WhilePeriod(), s, acts, ControlTimeout);
    acts := acts + [ControlTimeout];
    StaysNext(c, WhilePeriod(), s, acts, Receive(Blackout));
    acts := acts + [Receive(Blackout)];
    StaysNext(c, WhilePeriod(), s, acts, ControlStep);
    acts := acts + [ControlStep];
  }

  lemma RebuildsNow(c: Config, s: State) returns (acts: seq<Action>)
    requires s.main.DarkResume? && s.flags.resumeReq && !s.flags.shutdown && |s.npu.ctxs| > 0
    ensures Stays(c, WhilePeriod(), s, acts)
    ensures var t := End(c, s, acts);
      t.control == s.control && t.flags.active == s.flags.active && t.npu == Created(s.npu, 0).(badDup := {})
  {
    StaysOne(c, WhilePeriod(), s, MainStep(true));
    acts := [MainStep(true)];
    StaysNext(c, WhilePeriod(), s, acts, MainStep(true));
    acts := acts + [MainStep(true)];
    StaysNext(c, WhilePeriod(), s, acts, MainStep(true));
    acts := acts + [MainStep(true)];
  }

  /** Without a shutdown, some run of the period gives a blackout ok while a context exists. */
  lemma TimeoutLies(c: Config, s: State) returns (acts: seq<Action>)
    requires ValidConfig(c) && Announced(c, s) && Cycled(s) && Contexts(c, s)
    requires s.main.AnnounceDark? && !s.flags.shutdown
    ensures Stays(c, WhilePeriod(), s, acts) && !Honest(c, End(c, s, acts))
  {
    ControlAtDark(c, s);
    acts := GetsFree(c, s);
    var t := End(c, s, acts);
    var more := ResumeThenBlackout(c, t);
    StaysAppend(c, WhilePeriod(), s, acts, more);
    var u := End(c, t, more);
    var last := RebuildsNow(c, u);
    StaysAppend(c, WhilePeriod(), s, acts + more, last);
    acts := acts + more + last;
    assert End(c, s, acts).npu.ctxs[0] in End(c, s, acts).npu.alive;
  }
}
