/** The code of the threads over the shared containers: capturing and submitting,
    one turn of an inference thread, the refill and drain loops and the shutdown
    sentinels.  Each piece is the composition of the model's atomic steps it
    stands for, when no other thread runs in between. */
module PipelineThreads {
  import opened Queues
  import opened PipelineModel

  // ---- what each piece amounts to ----

  /** capture_and_submit, and the increment of in_flight that follows it. */
  function Captured(f: Traffic): Traffic
    requires f.free != []
  {
    Submitted(f, Work(Job(f.free[0], f.frameCounter)))
    .(free := f.free[1..], frameCounter := f.frameCounter + 1, inFlight := f.inFlight + 1)
  }

  lemma CapturedIsTwoSteps(c: Config, s: State)
    requires s.main.Acquire? && s.flow.free != []
    ensures var t := MainNext(c, s, true);
      MainEnabled(c, t) && MainNext(c, t, true).flow == Captured(s.flow)
  {
  }

  /** n frames captured in a row. */
  function Filled(f: Traffic, n: nat): (r: Traffic)
    requires n <= |f.free|
    ensures |r.free| == |f.free| - n && r.inFlight == f.inFlight + n && r.frameCounter == f.frameCounter + n
    ensures |r.inferQ| == |f.inferQ| + n && r.resultQ == f.resultQ && r.workers == f.workers
  {
    if n == 0 then f else Captured(Filled(f, n - 1))
  }

  /** The buffers of a fill are the oldest free ones, the frame ids consecutive. */
  lemma {:induction false} FilledJobs(f: Traffic, n: nat)
    requires n <= |f.free|
    ensures Filled(f, n).free == f.free[n..]
    ensures forall k :: 0 <= k < n ==> Filled(f, n).inferQ[|f.inferQ| + k] == Work(Job(f.free[k], f.frameCounter + k))
  {
    if n > 0 {
      FilledJobs(f, n - 1);
    }
  }

  /** The first two steps of a turn: taking a token, and loading inference_enabled. */
  function Loaded(f: Traffic, i: nat, inference: bool, ctx: nat): (r: Traffic)
    requires i < |f.workers| && f.workers[i].Idle? && f.inferQ != []
    ensures |r.workers| == |f.workers|
  {
    var popped := CrewNext(f, i, inference, ctx);
    if popped.workers[i].Exited? then popped else CrewNext(popped, i, inference, ctx)
  }

  /** From popping a job to pushing its result. */
  function Turned(f: Traffic, i: nat, inference: bool, ctx: nat): Traffic
    requires i < |f.workers| && f.workers[i].Idle? && f.inferQ != []
  {
    var loaded := Loaded(f, i, inference, ctx);
    if loaded.workers[i].Exited? then loaded
    else
      var ready := if loaded.workers[i].Inferring? then CrewNext(loaded, i, inference, ctx) else loaded;
      CrewNext(ready, i, inference, ctx)
  }

  /** Collecting and releasing until nothing is in flight. */
  function Drained(f: Traffic): Traffic
    decreases |f.resultQ|
  {
    if f.inFlight <= 0 || f.resultQ == [] then f else Drained(Released(Collected(f), f.resultQ[0].buf))
  }

  lemma DrainStepIsModelled(c: Config, s: State)
    requires s.main == Drain && s.flow.inFlight > 0 && s.flow.resultQ != []
    ensures var t := MainNext(c, s, true);
      MainEnabled(c, t) && MainNext(c, t, true).main == Drain
      && MainNext(c, t, true).flow == Released(Collected(s.flow), s.flow.resultQ[0].buf)
  {
  }

  function Bufs(jobs: seq<Job>): (r: seq<nat>)
    ensures |r| == |jobs|
  {
    if jobs == [] then [] else [jobs[0].buf] + Bufs(jobs[1..])
  }

  /** A drain whose results have all arrived returns their buffers in order. */
  lemma {:induction false} DrainedReturnsBuffers(f: Traffic)
    requires |f.resultQ| == f.inFlight
    ensures Drained(f) == f.(resultQ := [], inFlight := 0, free := f.free + Bufs(f.resultQ))
    decreases |f.resultQ|
  {
    if f.resultQ != [] {
      DrainedReturnsBuffers(Released(Collected(f), f.resultQ[0].buf));
      assert f.free + [f.resultQ[0].buf] + Bufs(f.resultQ[1..]) == f.free + Bufs(f.resultQ);
    }
  }

  /** n sentinels behind whatever is queued. */
  function Closed(f: Traffic, n: nat): Traffic {
    if n == 0 then f else Submitted(Closed(f, n - 1), Sentinel)
  }

  // ---- the threads ----

  class Pipeline {
    const threads: nat
    const inferQ: TSQueue<Token>
    const resultQ: TSQueue<Job>
    const pool: BufPool
    var inFlight: int
    var frameCounter: nat

    ghost predicate Valid()
      reads this, inferQ, resultQ, pool
    {
      inferQ.Valid() && resultQ.Valid() && pool.Valid()
    }

    /** The shared state, as the model sees it with the workers at `workers`. */
    ghost function View(workers: seq<Worker>): Traffic
      reads this, inferQ, resultQ, pool
    {
      Traffic(workers, inferQ.items, resultQ.items, pool.freeList, inFlight, frameCounter)
    }

    constructor (threads: nat, bufs: nat)
      ensures Valid() && this.threads == threads && pool.lent == {}
      ensures fresh(inferQ) && fresh(resultQ) && fresh(pool)
      ensures View(seq(threads, _ => Idle)) == Initial(Config(threads, bufs)).flow
    {
      this.threads := threads;
      inferQ := new TSQueue();
      resultQ := new TSQueue();
      pool := new BufPool(bufs);
      inFlight, frameCounter := 0, 0;
    }

    method CaptureAndSubmit(ghost workers: seq<Worker>)
      requires Valid() && pool.freeList != []
      modifies this, inferQ, pool
      ensures Valid() && View(workers) == Captured(old(View(workers)))
    {
      var idx := pool.Acquire();
      inferQ.Push(Work(Job(idx, frameCounter)));
      frameCounter := frameCounter + 1;
      inFlight := inFlight + 1;
    }

    /** Pre-filling at start, and refilling after a blackout. */
    method Fill(ghost workers: seq<Worker>)
      requires Valid() && threads <= |pool.freeList|
      modifies this, inferQ, pool
      ensures Valid() && View(workers) == Filled(old(View(workers)), threads)
    {
      ghost var f := View(workers);
      for i := 0 to threads
        invariant Valid() && View(workers) == Filled(f, i)
      {
        CaptureAndSubmit(workers);
      }
    }

    /** One turn of inference_thread's loop; `inference` is what it loads from
        inference_enabled.  Returns whether the thread left its loop, and whether
        it ran the network. */
    method InferenceTurn(ghost workers: seq<Worker>, ghost i: nat, inference: bool, ghost ctx: nat)
      returns (exited: bool, inferred: bool)
      requires Valid() && inferQ.items != [] && i < |workers| && workers[i] == Idle
      modifies inferQ, resultQ
      ensures Valid()
      ensures View(workers[i := if exited then Exited else Idle]) == Turned(old(View(workers)), i, inference, ctx)
      ensures exited <==> old(inferQ.items)[0].Sentinel?
      ensures inferred <==> Loaded(old(View(workers)), i, inference, ctx).workers[i].Inferring?
      ensures inferred <==> !exited && inference
    {
      var token := inferQ.Pop();
      if token.Sentinel? {
        return true, false;
      }
      if inference {
        inferred := true;      // rknn_inputs_set, rknn_run, post_process
      } else {
        inferred := false;     // an empty group
      }
      resultQ.Push(token.job);
      exited := false;
    }

    /** The blackout drain, run when the results have arrived: main is the only
        thread that takes from result_q and gives to the pool. */
    method DrainLoop(ghost workers: seq<Worker>)
      requires Valid() && |resultQ.items| == inFlight
      requires forall k :: 0 <= k < |resultQ.items| ==> resultQ.items[k].buf in pool.lent
      requires Distinct(Bufs(resultQ.items))
      modifies this, resultQ, pool
      ensures Valid() && View(workers) == Drained(old(View(workers)))
    {
      ghost var f := View(workers);
      while inFlight > 0
        invariant Valid() && |resultQ.items| == inFlight
        invariant forall k :: 0 <= k < |resultQ.items| ==> resultQ.items[k].buf in pool.lent
        invariant Distinct(Bufs(resultQ.items))
        invariant Drained(View(workers)) == Drained(f)
        decreases inFlight
      {
        BufsDiffer(resultQ.items);
        var job := resultQ.Pop();
        pool.Release(job.buf);
        inFlight := inFlight - 1;
      }
    }

    method PushSentinels(ghost workers: seq<Worker>)
      requires Valid()
      modifies inferQ
      ensures Valid() && View(workers) == Closed(old(View(workers)), threads)
    {
      ghost var f := View(workers);
      for i := 0 to threads
        invariant Valid() && View(workers) == Closed(f, i)
      {
        inferQ.Push(Sentinel);
      }
    }
  }

  lemma {:induction false} BufsAt(jobs: seq<Job>, k: nat)
    requires k < |jobs|
    ensures Bufs(jobs)[k] == jobs[k].buf
  {
    if k > 0 {
      BufsAt(jobs[1..], k - 1);
    }
  }

  /** No later result holds the first one's buffer. */
  lemma BufsDiffer(jobs: seq<Job>)
    requires jobs != [] && Distinct(Bufs(jobs))
    ensures Distinct(Bufs(jobs[1..]))
    ensures forall k :: 0 <= k < |jobs| - 1 ==> jobs[1..][k].buf != jobs[0].buf
  {
    forall k | 0 <= k < |jobs| - 1
      ensures jobs[1..][k].buf != jobs[0].buf
    {
      BufsAt(jobs, k + 1);
      assert Bufs(jobs)[0] != Bufs(jobs)[k + 1];
    }
    var b := Bufs(jobs);
    assert Bufs(jobs[1..]) == b[1..];
    forall i, j | 0 <= i < j < |b| - 1
      ensures b[1..][i] != b[1..][j]
    {
      assert b[i + 1] != b[j + 1];
    }
  }
}
