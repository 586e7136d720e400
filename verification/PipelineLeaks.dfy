/** Which NPU contexts exist: none but those main holds, and none at the end. */
module PipelineLeaks {
  import opened PipelineModel
  import opened PipelineBooks
  import opened PipelineContexts

  /** Every context that exists is one of main's, and these differ. */
  ghost predicate Owned(n: Npu) {
    && (forall h :: h in n.alive ==> h in n.ctxs)
    && (forall i, j :: 0 <= i < j < |n.ctxs| ==> n.ctxs[i] != n.ctxs[j])
  }

  ghost predicate LiveFrom(n: Npu, k: nat) {
    forall i :: k <= i < |n.ctxs| ==> (n.ctxs[i] in n.alive <==> i !in n.badDup)
  }

  /** What teardown finds and leaves. */
  ghost predicate Ending(c: Config, s: State) {
    && (Closing(s.main) && s.flow.inFlight == 0 ==> DeadBelow(s.npu, c.threads))
    && (s.main.FinalDestroy? ==> DeadBelow(s.npu, s.main.k) && (s.flow.inFlight > 0 ==> LiveFrom(s.npu, s.main.k)))
    && (s.main.Finished? ==> DeadBelow(s.npu, c.threads))
  }

  ghost predicate Leakless(c: Config, s: State) {
    Owned(s.npu) && Ending(c, s)
  }

  lemma LeaklessInitially(c: Config)
    ensures Leakless(c, Initial(c))
  {
    var n := Initial(c).npu;
    forall h | h in n.alive
      ensures h in n.ctxs
    {
      assert n.ctxs[h] == h;
    }
  }

  lemma CreatedOwned(c: Config, n: Npu, k: nat)
    requires Handled(c, n) && Owned(n) && k < |n.ctxs| && n.ctxs[k] !in n.alive
    ensures Owned(Created(n, k))
  {
    var m := Created(n, k);
    assert m.ctxs[k] == n.nextHandle;
    forall h | h in m.alive
      ensures h in m.ctxs
    {
      if h != n.nextHandle {
        var i :| 0 <= i < |n.ctxs| && n.ctxs[i] == h;
        assert m.ctxs[i] == h;
      }
    }
  }

  lemma OwnedMain(c: Config, s: State, ok: bool)
    requires ValidConfig(c) && Contexts(c, s) && Owned(s.npu) && MainEnabled(c, s)
    ensures Owned(MainNext(c, s, ok).npu)
  {
    if Flowing(s.main) {
    } else if Blacking(s.main) {
    } else if Closing(s.main) {
    } else if s.main.Init? {
      if |s.npu.ctxs| > 0 {
        CreatedOwned(c, s.npu, 0);
      }
    } else if s.main.Dup? {
      if s.main.k < |s.npu.ctxs| {
        CreatedOwned(c, s.npu, s.main.k);
      }
    }
  }

  lemma EndingClosing(c: Config, s: State)
    requires ValidConfig(c) && Contexts(c, s) && Books(c, s) && Leakless(c, s) && MainEnabled(c, s) && Closing(s.main)
    ensures Ending(c, TeardownNext(c, s))
  {
    if s.main.FinalDestroy? {
      var t := TeardownNext(c, s);
      assert t.main.FinalDestroy? ==> DeadBelow(t.npu, t.main.k);
    }
  }

  lemma EndingFlow(c: Config, s: State)
    requires ValidConfig(c) && Books(c, s) && Flowing(s.main) && MainEnabled(c, s)
    ensures Ending(c, FlowNext(c, s))
  {
  }

  lemma EndingBlackout(c: Config, s: State)
    requires Fits(c, s) && Blacking(s.main) && MainEnabled(c, s)
    ensures Ending(c, BlackoutNext(c, s))
  {
  }

  lemma EndingRevive(c: Config, s: State, ok: bool)
    requires Fits(c, s) && !Flowing(s.main) && !Blacking(s.main) && !Closing(s.main)
    ensures Ending(c, ResumeNext(c, s, ok))
  {
  }

  lemma EndingMain(c: Config, s: State, ok: bool)
    requires ValidConfig(c) && Contexts(c, s) && Books(c, s) && Leakless(c, s) && MainEnabled(c, s)
    ensures Ending(c, MainNext(c, s, ok))
  {
    if Flowing(s.main) {
      EndingFlow(c, s);
    } else if Blacking(s.main) {
      EndingBlackout(c, s);
    } else if Closing(s.main) {
      EndingClosing(c, s);
    } else {
      EndingRevive(c, s, ok);
    }
  }

  lemma LeaklessStep(c: Config, s: State, a: Action)
    requires ValidConfig(c) && Contexts(c, s) && Books(c, s) && Leakless(c, s) && Enabled(c, s, a)
    ensures Leakless(c, Apply(c, s, a))
  {
    match a
    case MainStep(ok) =>
      OwnedMain(c, s, ok);
      EndingMain(c, s, ok);
    case _ =>
  }

  /** With every context of main's destroyed, none exists. */
  lemma NoneLeft(c: Config, n: Npu)
    requires Handled(c, n) && Owned(n) && DeadBelow(n, c.threads)
    ensures n.alive == {}
  {
    forall h | h in n.ctxs
      ensures h !in n.alive
    {
      var i :| 0 <= i < |n.ctxs| && n.ctxs[i] == h;
    }
  }
}
