/** Use-safety of the NPU contexts. */
module PipelineContexts {
  import opened PipelineModel
  import opened PipelineBooks
  import opened PipelineShutdown

  /** Context `i` is usable exactly when its latest duplication did not fail. */
  ghost predicate LiveBelow(n: Npu, k: nat) {
    forall i :: 0 <= i < k && i < |n.ctxs| ==> (n.ctxs[i] in n.alive <==> i !in n.badDup)
  }

  ghost predicate AssignedBelow(n: Npu, k: nat) {
    forall i :: 0 <= i < k && i < |n.ctxs| && i < |n.tctxs| ==> n.tctxs[i] == n.ctxs[i]
  }

  ghost predicate DeadBelow(n: Npu, k: nat) {
    forall i :: 0 <= i < k && i < |n.ctxs| ==> n.ctxs[i] !in n.alive
  }

  ghost predicate DeadFrom(n: Npu, k: nat) {
    forall i :: k <= i < |n.ctxs| ==> n.ctxs[i] !in n.alive
  }

  ghost predicate Fits(c: Config, s: State) {
    var N := c.threads;
    match s.main
    case Destroy(k) => DeadBelow(s.npu, k)
    case AnnounceDark => DeadBelow(s.npu, N)
    case DarkResume => DeadBelow(s.npu, N)
    case DarkShutdown => DeadBelow(s.npu, N)
    case LeaveDark => DeadBelow(s.npu, N)
    case Init => DeadBelow(s.npu, N)
    case Dup(k) => 1 <= k && LiveBelow(s.npu, k) && DeadFrom(s.npu, k) && (forall i :: i in s.npu.badDup ==> 1 <= i < k)
    case Assign(k) => LiveBelow(s.npu, N) && AssignedBelow(s.npu, k)
    case StopControl => s.flow.inFlight == 0 || (LiveBelow(s.npu, N) && AssignedBelow(s.npu, N))
    case PushSentinels(_) => s.flow.inFlight == 0 || (LiveBelow(s.npu, N) && AssignedBelow(s.npu, N))
    case Join(_) => s.flow.inFlight == 0 || (LiveBelow(s.npu, N) && AssignedBelow(s.npu, N))
    case FinalDestroy(_) => true
    case Finished => true
    case _ => LiveBelow(s.npu, N) && AssignedBelow(s.npu, N)
  }

  ghost predicate Handled(c: Config, n: Npu) {
    && |n.ctxs| == |n.tctxs| == c.threads
    && (forall i :: 0 <= i < |n.ctxs| ==> n.ctxs[i] < n.nextHandle)
    && (forall h :: h in n.alive ==> h < n.nextHandle)
  }

  /** A worker on the NPU path uses the handle it was given. */
  ghost predicate OwnHandle(s: State) {
    forall i :: 0 <= i < |s.flow.workers| && s.flow.workers[i].Inferring? ==>
      i < |s.npu.tctxs| && s.flow.workers[i].ctx == s.npu.tctxs[i]
  }

  ghost predicate Contexts(c: Config, s: State) {
    Handled(c, s.npu) && Fits(c, s) && OwnHandle(s)
  }

  /** Every worker on the NPU path holds main's current handle of its own
      context, and that context exists unless its duplication failed. */
  ghost predicate ContextSafe(s: State) {
    && |s.npu.ctxs| == |s.npu.tctxs| == |s.flow.workers|
    && forall i :: 0 <= i < |s.flow.workers| && s.flow.workers[i].Inferring? ==>
         && s.flow.workers[i].ctx == s.npu.tctxs[i] == s.npu.ctxs[i]
         && (s.flow.workers[i].ctx in s.npu.alive <==> i !in s.npu.badDup)
  }

  lemma ContextsInitially(c: Config)
    requires ValidConfig(c)
    ensures Contexts(c, Initial(c))
  {
  }

  /** With nothing in flight no worker is on the NPU path. */
  lemma NothingInferring(c: Config, s: State)
    requires Books(c, s) && s.flow.inFlight == 0
    ensures forall i :: 0 <= i < |s.flow.workers| ==> !s.flow.workers[i].Inferring?
  {
    NobodyBusy(s.flow.workers);
  }

  lemma FitsRevive(c: Config, s: State, ok: bool)
    requires ValidConfig(c) && Handled(c, s.npu) && Fits(c, s) && Reviving(s.main) && s.flow.inFlight == 0
    ensures Handled(c, ResumeNext(c, s, ok).npu) && Fits(c, ResumeNext(c, s, ok))
  {
    var t := ResumeNext(c, s, ok);
    match s.main
    case Init => assert t.main == StopControl || (LiveBelow(t.npu, 1) && DeadFrom(t.npu, 1));
    case Dup(k) =>
      if k < c.threads {
        assert LiveBelow(t.npu, k + 1) && DeadFrom(t.npu, k + 1);
      } else {
        assert LiveBelow(t.npu, c.threads);
      }
    case Assign(k) => assert AssignedBelow(t.npu, k + 1);
    case AnnounceResume =>
  }

  lemma FitsBlackout(c: Config, s: State)
    requires ValidConfig(c) && Handled(c, s.npu) && Fits(c, s) && Blacking(s.main) && MainEnabled(c, s)
    requires s.main.LeaveDark? ==> s.flow.inFlight == 0
    ensures Handled(c, BlackoutNext(c, s).npu) && Fits(c, BlackoutNext(c, s))
  {
    var t := BlackoutNext(c, s);
    if s.main.Destroy? {
      assert DeadBelow(t.npu, if s.main.k < c.threads then s.main.k + 1 else c.threads);
    }
  }

  lemma FitsOther(c: Config, s: State, ok: bool)
    requires ValidConfig(c) && Handled(c, s.npu) && Fits(c, s) && MainEnabled(c, s)
    requires Flowing(s.main) || Closing(s.main) || s.main.ClearBlackout? || s.main.ClearResume?
    ensures Handled(c, MainNext(c, s, ok).npu) && Fits(c, MainNext(c, s, ok))
  {
    if Closing(s.main) {
      var t := TeardownNext(c, s);
      assert t.flow.inFlight == s.flow.inFlight;
    } else if Flowing(s.main) {
      assert FlowNext(c, s).npu == s.npu;
    }
  }

  /** The main thread changes what the workers use only while no worker is inferring. */
  lemma HandlesSettled(c: Config, s: State, ok: bool)
    requires MainEnabled(c, s) && !s.main.Assign?
    ensures MainNext(c, s, ok).npu.tctxs == s.npu.tctxs && MainNext(c, s, ok).flow.workers == s.flow.workers
  {
    if Flowing(s.main) {
    } else if Blacking(s.main) {
    } else if Closing(s.main) {
    } else {
    }
  }

  lemma ContextsMain(c: Config, s: State, ok: bool)
    requires ValidConfig(c) && Contexts(c, s) && Books(c, s) && MainEnabled(c, s)
    ensures Contexts(c, MainNext(c, s, ok))
  {
    if Reviving(s.main) {
      FitsRevive(c, s, ok);
    } else if Blacking(s.main) {
      FitsBlackout(c, s);
    } else {
      FitsOther(c, s, ok);
    }
    if s.main.Assign? {
      NothingInferring(c, s);
      assert MainNext(c, s, ok).flow.workers == s.flow.workers;
    } else {
      HandlesSettled(c, s, ok);
    }
  }

  lemma ContextsStep(c: Config, s: State, a: Action)
    requires ValidConfig(c) && Contexts(c, s) && Books(c, s) && Enabled(c, s, a)
    ensures Contexts(c, Apply(c, s, a))
  {
    match a
    case MainStep(ok) => ContextsMain(c, s, ok);
    case WorkerStep(i) =>
      var t := WorkerNext(s, i);
      assert t.flow.inFlight == s.flow.inFlight && t.npu == s.npu && t.main == s.main;
    case Receive(cmd) => FitsFrame(c, s, ReceiveNext(s, cmd));
    case ControlStep => FitsFrame(c, s, ControlNext(s));
    case ControlTimeout => FitsFrame(c, s, TimeoutNext(s));
  }

  lemma FitsFrame(c: Config, s: State, t: State)
    requires Contexts(c, s) && t.main == s.main && t.npu == s.npu && t.flow == s.flow
    ensures Contexts(c, t)
  {
  }

  /** In every state the three invariants allow, the NPU path is safe. */
  lemma SafeUse(c: Config, s: State)
    requires ValidConfig(c) && Contexts(c, s) && Books(c, s) && Shutting(c, s)
    ensures ContextSafe(s)
  {
    if s.flow.inFlight == 0 {
      NothingInferring(c, s);
    } else if s.main.FinalDestroy? || s.main.Finished? {
      assert forall i :: 0 <= i < |s.flow.workers| ==> !s.flow.workers[i].Inferring?;
    } else {
      assert LiveBelow(s.npu, c.threads) && AssignedBelow(s.npu, c.threads);
    }
  }
}
