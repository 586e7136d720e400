/** Teardown: the sentinels, and who consumes them. */
module PipelineShutdown {
  import opened PipelineModel
  import opened PipelineBooks

  function SentinelCount(q: seq<Token>): nat {
    if q == [] then 0 else (if q[0].Sentinel? then 1 else 0) + SentinelCount(q[1..])
  }

  function ExitedCount(ws: seq<Worker>): nat {
    if ws == [] then 0 else (if ws[0].Exited? then 1 else 0) + ExitedCount(ws[1..])
  }

  /** Sentinels pushed so far. */
  function Pushed(c: Config, m: Main): nat {
    match m
    case PushSentinels(k) => k
    case Join(_) => c.threads
    case FinalDestroy(_) => c.threads
    case Finished => c.threads
    case _ => 0
  }

  /** Every job in the queue is ahead of every sentinel. */
  ghost predicate Orderly(q: seq<Token>) {
    forall i, j :: 0 <= i < j < |q| && q[i].Sentinel? ==> q[j].Sentinel?
  }

  ghost predicate Shutting(c: Config, s: State) {
    && |s.flow.workers| == c.threads == |s.npu.tctxs|
    && SentinelCount(s.flow.inferQ) + ExitedCount(s.flow.workers) == Pushed(c, s.main) <= c.threads
    && Orderly(s.flow.inferQ)
    && (ExitedCount(s.flow.workers) > 0 ==> forall i :: 0 <= i < |s.flow.inferQ| ==> s.flow.inferQ[i].Sentinel?)
    && (s.main.Join? ==> forall i :: 0 <= i < s.main.k && i < c.threads ==> s.flow.workers[i].Exited?)
    && (s.main.FinalDestroy? || s.main.Finished? ==> forall i :: 0 <= i < c.threads ==> s.flow.workers[i].Exited?)
  }

  lemma {:induction false} SentinelSnoc(q: seq<Token>, t: Token)
    ensures SentinelCount(q + [t]) == SentinelCount(q) + if t.Sentinel? then 1 else 0
  {
    if q == [] {
      assert q + [t] == [t];
    } else {
      assert (q + [t])[1..] == q[1..] + [t];
      SentinelSnoc(q[1..], t);
    }
  }

  lemma {:induction false} NoSentinels(q: seq<Token>)
    requires SentinelCount(q) == 0
    ensures forall i :: 0 <= i < |q| ==> q[i].Work?
    ensures q != [] ==> q[0].Work?
  {
    if q != [] {
      NoSentinels(q[1..]);
      assert forall i :: 1 <= i < |q| ==> q[i] == q[1..][i - 1];
    }
  }

  lemma {:induction false} ExitedSwap(ws: seq<Worker>, i: nat, w: Worker)
    requires i < |ws|
    ensures ExitedCount(ws[i := w]) + (if ws[i].Exited? then 1 else 0) == ExitedCount(ws) + (if w.Exited? then 1 else 0)
  {
    if i == 0 {
      assert ws[i := w][1..] == ws[1..];
    } else {
      assert ws[i := w][1..] == ws[1..][i - 1 := w];
      ExitedSwap(ws[1..], i - 1, w);
    }
  }

  lemma {:induction false} ExitedBound(ws: seq<Worker>)
    ensures ExitedCount(ws) <= |ws|
    ensures ExitedCount(ws) == |ws| <==> forall i :: 0 <= i < |ws| ==> ws[i].Exited?
    ensures ExitedCount(ws) == 0 <==> forall i :: 0 <= i < |ws| ==> !ws[i].Exited?
  {
    if ws != [] {
      ExitedBound(ws[1..]);
      assert forall i :: 1 <= i < |ws| ==> ws[i] == ws[1..][i - 1];
    }
  }

  lemma {:induction false} IdleNotExited(n: nat)
    ensures ExitedCount(seq(n, _ => Idle)) == 0
  {
    if n > 0 {
      assert seq(n, _ => Idle)[1..] == seq(n - 1, _ => Idle);
      IdleNotExited(n - 1);
    }
  }

  lemma ShuttingInitially(c: Config)
    ensures Shutting(c, Initial(c))
  {
    IdleNotExited(c.threads);
  }

  lemma ShuttingWorker(c: Config, s: State, i: nat)
    requires Shutting(c, s) && WorkerEnabled(s, i)
    ensures Shutting(c, WorkerNext(s, i))
  {
    var t := WorkerNext(s, i);
    ExitedSwap(s.flow.workers, i, t.flow.workers[i]);
    ExitedBound(s.flow.workers);
    assert s.flow.workers[i].Idle? ==>
      forall k :: 0 <= k < |t.flow.inferQ| ==> t.flow.inferQ[k] == s.flow.inferQ[k + 1];
  }

  lemma ShuttingPush(c: Config, s: State, ok: bool)
    requires Shutting(c, s) && MainEnabled(c, s) && (s.main.Submit? || s.main.PushSentinels?)
    ensures Shutting(c, MainNext(c, s, ok))
  {
    var t := MainNext(c, s, ok);
    if s.main.Submit? {
      NoSentinels(s.flow.inferQ);
      SentinelSnoc(s.flow.inferQ, Work(Job(s.main.buf, s.flow.frameCounter)));
    } else {
      SentinelSnoc(s.flow.inferQ, Sentinel);
    }
  }

  /** A main step that pushes nothing leaves infer_q and the workers alone. */
  lemma ShuttingFrame(c: Config, s: State, ok: bool)
    requires MainEnabled(c, s) && !s.main.Submit? && !s.main.PushSentinels?
    ensures var t := MainNext(c, s, ok);
      t.flow.inferQ == s.flow.inferQ && t.flow.workers == s.flow.workers && |t.npu.tctxs| == |s.npu.tctxs|
  {
    if Flowing(s.main) {
    } else if Blacking(s.main) {
    } else if Closing(s.main) {
    } else {
    }
  }

  lemma PushedFrame(c: Config, s: State, ok: bool)
    requires MainEnabled(c, s) && !s.main.Submit? && !s.main.PushSentinels?
    ensures var t := MainNext(c, s, ok);
      && Pushed(c, t.main) == Pushed(c, s.main)
      && (t.main.Join? ==> s.main.Join? && s.main.k < c.threads && t.main.k == s.main.k + 1)
      && (t.main.FinalDestroy? || t.main.Finished? ==>
            s.main.FinalDestroy? || (s.main.Join? && s.main.k >= c.threads))
  {
  }

  lemma ShuttingStep(c: Config, s: State, a: Action)
    requires Shutting(c, s) && Enabled(c, s, a)
    ensures Shutting(c, Apply(c, s, a))
  {
    match a
    case MainStep(ok) =>
      if s.main.Submit? || s.main.PushSentinels? {
        ShuttingPush(c, s, ok);
      } else {
        ShuttingFrame(c, s, ok);
        PushedFrame(c, s, ok);
      }
    case WorkerStep(i) => ShuttingWorker(c, s, i);
    case _ =>
  }

  /** Once the joins are done, the sentinels pushed are as many as the workers
      that left on one, none is still queued, and every job in flight has been
      processed and waits in result_q. */
  lemma JoinedCleanly(c: Config, s: State)
    requires ValidConfig(c) && Shutting(c, s) && Books(c, s) && s.main.FinalDestroy?
    ensures Pushed(c, s.main) == ExitedCount(s.flow.workers) == c.threads && SentinelCount(s.flow.inferQ) == 0
    ensures s.flow.inferQ == []
    ensures s.flow.inFlight == |s.flow.resultQ|
  {
    ExitedBound(s.flow.workers);
    NoSentinels(s.flow.inferQ);
    CountAll(s.flow.resultQ);
    NobodyBusy(s.flow.workers);
  }

  lemma {:induction false} NobodyBusy(ws: seq<Worker>)
    ensures CrewCount(AnyJob, ws) == 0 <==>
            forall i :: 0 <= i < |ws| ==> ws[i].Idle? || ws[i].Exited?
  {
    if ws != [] {
      NobodyBusy(ws[1..]);
      assert forall i :: 1 <= i < |ws| ==> ws[i] == ws[1..][i - 1];
    }
  }
}
