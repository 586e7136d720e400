/** Progress: the main thread never waits for something that cannot come, and
    both the blackout drain and the shutdown joins end after boundedly many steps. */
module PipelineProgress {
  import opened PipelineModel
  import opened PipelineBooks
  import opened PipelineShutdown

  function QueueRank(q: seq<Token>): nat {
    if q == [] then 0 else (if q[0].Work? then 6 else 1) + QueueRank(q[1..])
  }

  function WorkerRank(w: Worker): nat {
    match w
    case Holding(_) => 5
    case Inferring(_, _) => 4
    case Ready(_) => 3
    case _ => 0
  }

  function CrewRank(ws: seq<Worker>): nat {
    if ws == [] then 0 else WorkerRank(ws[0]) + CrewRank(ws[1..])
  }

  /** Work left before everything queued has been handed back and released. */
  function Rank(s: State): nat {
    QueueRank(s.flow.inferQ) + CrewRank(s.flow.workers) + 2 * |s.flow.resultQ|
    + (if s.main.DrainRelease? then 1 else 0)
  }

  lemma {:induction false} CrewRankSwap(ws: seq<Worker>, i: nat, w: Worker)
    requires i < |ws|
    ensures CrewRank(ws[i := w]) + WorkerRank(ws[i]) == CrewRank(ws) + WorkerRank(w)
  {
    if i == 0 {
      assert ws[i := w][1..] == ws[1..];
    } else {
      assert ws[i := w][1..] == ws[1..][i - 1 := w];
      CrewRankSwap(ws[1..], i - 1, w);
    }
  }

  lemma WorkerStepsDecrease(s: State, i: nat)
    requires WorkerEnabled(s, i)
    ensures Rank(WorkerNext(s, i)) < Rank(s)
    ensures WorkerNext(s, i).main == s.main && WorkerNext(s, i).flow.inFlight == s.flow.inFlight
  {
    CrewRankSwap(s.flow.workers, i, WorkerNext(s, i).flow.workers[i]);
  }

  /** While the main thread waits for a result, some worker can step. */
  lemma WaitingIsAnswered(c: Config, s: State)
    requires ValidConfig(c) && Books(c, s) && Shutting(c, s)
    requires s.main.WaitResult? || s.main.Drain?
    requires !MainEnabled(c, s)
    ensures exists i: nat :: WorkerEnabled(s, i)
  {
    ExitedBound(s.flow.workers);
    NobodyBusy(s.flow.workers);
    if CrewCount(AnyJob, s.flow.workers) > 0 {
      var i: nat :| i < |s.flow.workers| && !s.flow.workers[i].Idle? && !s.flow.workers[i].Exited?;
      assert WorkerEnabled(s, i);
    } else {
      assert WorkerEnabled(s, 0);
    }
  }

  /** While the main thread waits in a join, some worker can step. */
  lemma JoiningIsAnswered(c: Config, s: State)
    requires ValidConfig(c) && Shutting(c, s) && s.main.Join? && !MainEnabled(c, s)
    ensures exists i: nat :: WorkerEnabled(s, i)
  {
    ExitedBound(s.flow.workers);
    assert WorkerEnabled(s, s.main.k);
  }

  predicate Works(a: Action) {
    a.MainStep? || a.WorkerStep?
  }

  /** Steps of the main thread and the workers among `acts`. */
  function WorkCount(acts: seq<Action>): nat {
    if acts == [] then 0 else (if Works(acts[0]) then 1 else 0) + WorkCount(acts[1..])
  }

  /** The blackout drain is not over. */
  predicate Draining(s: State) {
    s.main.DrainRelease? || (s.main.Drain? && s.flow.inFlight > 0)
  }

  function WhileDraining(): Region {
    (s: State, a: Action) => Draining(s)
  }

  /** However the control thread interferes, a drain takes at most Rank(s)
      steps of the main thread and the workers. */
  lemma {:induction false} DrainEnds(c: Config, s: State, acts: seq<Action>)
    requires Stays(c, WhileDraining(), s, acts)
    ensures WorkCount(acts) <= Rank(s)
    decreases |acts|
  {
    if acts != [] {
      var t := Apply(c, s, acts[0]);
      match acts[0] {
        case WorkerStep(i) => WorkerStepsDecrease(s, i);
        case _ =>
      }
      DrainEnds(c, t, acts[1..]);
    }
  }

  lemma {:induction false} QueueRankIs(q: seq<Token>)
    requires SentinelCount(q) == 0
    ensures QueueRank(q) == 6 * QueueCount(AnyJob, q)
  {
    if q != [] {
      QueueRankIs(q[1..]);
    }
  }

  lemma {:induction false} CrewRankBound(ws: seq<Worker>)
    ensures CrewRank(ws) <= 5 * CrewCount(AnyJob, ws)
  {
    if ws != [] {
      CrewRankBound(ws[1..]);
    }
  }

  /** In the pipeline that bound is six steps per inference thread. */
  lemma DrainIsShort(c: Config, s: State, acts: seq<Action>)
    requires ValidConfig(c) && Books(c, s) && Shutting(c, s) && s.main.Drain?
    requires Stays(c, WhileDraining(), s, acts)
    ensures WorkCount(acts) <= 6 * c.threads
  {
    DrainEnds(c, s, acts);
    QueueRankIs(s.flow.inferQ);
    CrewRankBound(s.flow.workers);
    CountAll(s.flow.resultQ);
  }

  function WhileJoining(): Region {
    (s: State, a: Action) => s.main.Join?
  }

  /** The joins at shutdown take boundedly many steps. */
  lemma {:induction false} JoinsEnd(c: Config, s: State, acts: seq<Action>)
    requires Stays(c, WhileJoining(), s, acts) && s.main.Join? && s.main.k <= c.threads
    ensures WorkCount(acts) <= Rank(s) + c.threads - s.main.k + 1
    decreases |acts|
  {
    if acts != [] {
      var t := Apply(c, s, acts[0]);
      match acts[0] {
        case WorkerStep(i) => WorkerStepsDecrease(s, i);
        case _ =>
      }
      if t.main.Join? {
        JoinsEnd(c, t, acts[1..]);
      } else {
        assert acts[1..] == [];
      }
    }
  }
}
