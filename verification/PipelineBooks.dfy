/** Conservation: where every buffer and every captured frame is, in every
    reachable state. */
module PipelineBooks {
  import opened PipelineModel

  /** A question about a job: is it one at all, does it hold buffer `b`, is it frame `f`? */
  datatype Probe = AnyJob | BufIs(b: nat) | FrameIs(f: nat)

  function Hits(p: Probe, j: Job): nat {
    match p
    case AnyJob => 1
    case BufIs(b) => if j.buf == b then 1 else 0
    case FrameIs(f) => if j.frame == f then 1 else 0
  }

  function Count(p: Probe, js: seq<Job>): nat {
    if js == [] then 0 else Hits(p, js[0]) + Count(p, js[1..])
  }

  function TokenCount(p: Probe, t: Token): nat {
    if t.Work? then Hits(p, t.job) else 0
  }

  function QueueCount(p: Probe, q: seq<Token>): nat {
    if q == [] then 0 else TokenCount(p, q[0]) + QueueCount(p, q[1..])
  }

  function WorkerCount(p: Probe, w: Worker): nat {
    if w.Holding? || w.Inferring? || w.Ready? then Hits(p, w.job) else 0
  }

  function CrewCount(p: Probe, ws: seq<Worker>): nat {
    if ws == [] then 0 else WorkerCount(p, ws[0]) + CrewCount(p, ws[1..])
  }

  /** Jobs submitted and not yet collected by the main thread. */
  function Pending(p: Probe, f: Traffic): nat {
    QueueCount(p, f.inferQ) + CrewCount(p, f.workers) + Count(p, f.resultQ)
  }

  /** The job the main thread has collected and not finished with. */
  function Hand(p: Probe, m: Main): nat {
    match m
    case Show(j) => Hits(p, j)
    case Publish(j) => Hits(p, j)
    case Recycle(j) => Hits(p, j)
    case DrainRelease(j) => Hits(p, j)
    case _ => 0
  }

  function Occurs(x: nat, s: seq<nat>): nat {
    if s == [] then 0 else (if s[0] == x then 1 else 0) + Occurs(x, s[1..])
  }

  /** How many owners buffer `b` has: free list, a queue, a worker, or the main thread. */
  function Owners(b: nat, s: State): nat {
    Occurs(b, s.flow.free) + Pending(BufIs(b), s.flow) + Hand(BufIs(b), s.main)
    + (if s.main.Submit? && s.main.buf == b then 1 else 0)
  }

  /** How many places frame `f` is in: displayed, drained, or in flight. */
  function Places(f: nat, s: State): nat {
    Occurs(f, s.past.displayed) + Occurs(f, s.past.drained) + Pending(FrameIs(f), s.flow)
    + (if s.main.Show? || s.main.DrainRelease? then Hand(FrameIs(f), s.main) else 0)
  }

  // ---- counting lemmas ----

  lemma {:induction false} CountSnoc(p: Probe, js: seq<Job>, j: Job)
    ensures Count(p, js + [j]) == Count(p, js) + Hits(p, j)
  {
    if js == [] {
      assert js + [j] == [j];
    } else {
      assert (js + [j])[1..] == js[1..] + [j];
      CountSnoc(p, js[1..], j);
    }
  }

  lemma {:induction false} QueueSnoc(p: Probe, q: seq<Token>, t: Token)
    ensures QueueCount(p, q + [t]) == QueueCount(p, q) + TokenCount(p, t)
  {
    if q == [] {
      assert q + [t] == [t];
    } else {
      assert (q + [t])[1..] == q[1..] + [t];
      QueueSnoc(p, q[1..], t);
    }
  }

  lemma {:induction false} CrewSwap(p: Probe, ws: seq<Worker>, i: nat, w: Worker)
    requires i < |ws|
    ensures CrewCount(p, ws[i := w]) + WorkerCount(p, ws[i]) == CrewCount(p, ws) + WorkerCount(p, w)
  {
    if i == 0 {
      assert ws[i := w][1..] == ws[1..];
    } else {
      assert ws[i := w][1..] == ws[1..][i - 1 := w];
      CrewSwap(p, ws[1..], i - 1, w);
    }
  }

  lemma {:induction false} OccursSnoc(x: nat, s: seq<nat>, y: nat)
    ensures Occurs(x, s + [y]) == Occurs(x, s) + (if x == y then 1 else 0)
  {
    if s == [] {
      assert s + [y] == [y];
    } else {
      assert (s + [y])[1..] == s[1..] + [y];
      OccursSnoc(x, s[1..], y);
    }
  }

  lemma {:induction false} CountAll(js: seq<Job>)
    ensures Count(AnyJob, js) == |js|
  {
    if js != [] {
      CountAll(js[1..]);
    }
  }

  /** A worker step moves its job, or nothing, from one place to the next. */
  lemma CrewConserves(p: Probe, f: Traffic, i: nat, inference: bool, ctx: nat)
    requires i < |f.workers| && (f.workers[i].Idle? ==> f.inferQ != [])
    ensures Pending(p, CrewNext(f, i, inference, ctx)) == Pending(p, f)
  {
    var g := CrewNext(f, i, inference, ctx);
    CrewSwap(p, f.workers, i, g.workers[i]);
    if f.workers[i].Ready? {
      CountSnoc(p, f.resultQ, f.workers[i].job);
    }
  }

  lemma SubmitCounts(p: Probe, f: Traffic, t: Token)
    ensures Pending(p, Submitted(f, t)) == Pending(p, f) + TokenCount(p, t)
  {
    QueueSnoc(p, f.inferQ, t);
  }

  lemma CollectCounts(p: Probe, f: Traffic)
    requires f.resultQ != []
    ensures Pending(p, Collected(f)) + Hits(p, f.resultQ[0]) == Pending(p, f)
  {
  }

  // ---- the invariant ----

  /** in_flight at each point of the main thread. */
  ghost predicate InFlightFits(c: Config, s: State) {
    match s.main
    case Acquire(Prefill(k)) => s.flow.inFlight == k < c.threads
    case Submit(Prefill(k), _) => s.flow.inFlight == k < c.threads
    case Acquire(Refill(k)) => s.flow.inFlight == k < c.threads
    case Submit(Refill(k), _) => s.flow.inFlight == k < c.threads
    case Acquire(Steady) => s.flow.inFlight == c.threads - 1
    case Submit(Steady, _) => s.flow.inFlight == c.threads - 1
    case Head => s.flow.inFlight == c.threads
    case CheckBlackout => s.flow.inFlight == c.threads
    case WaitResult => s.flow.inFlight == c.threads
    case Show(_) => s.flow.inFlight == c.threads - 1
    case Publish(_) => s.flow.inFlight == c.threads - 1
    case Recycle(_) => s.flow.inFlight == c.threads - 1
    case ClearHandshake => s.flow.inFlight == c.threads
    case Drain => 0 <= s.flow.inFlight <= c.threads
    case DrainRelease(_) => 0 <= s.flow.inFlight < c.threads
    case StopControl => s.flow.inFlight == 0 || s.flow.inFlight == c.threads
    case PushSentinels(_) => s.flow.inFlight == 0 || s.flow.inFlight == c.threads
    case Join(_) => s.flow.inFlight == 0 || s.flow.inFlight == c.threads
    case FinalDestroy(_) => s.flow.inFlight == 0 || s.flow.inFlight == c.threads
    case Finished => s.flow.inFlight == 0 || s.flow.inFlight == c.threads
    case _ => s.flow.inFlight == 0
  }

  /** Buffers the main thread holds outside a queue. */
  function MainBufs(m: Main): nat {
    Hand(AnyJob, m) + (if m.Submit? then 1 else 0)
  }

  ghost predicate Books(c: Config, s: State) {
    && InFlightFits(c, s)
    && s.flow.inFlight == Pending(AnyJob, s.flow)
    && |s.flow.free| + s.flow.inFlight + MainBufs(s.main) == c.bufs
    && (forall b: nat :: Owners(b, s) == if b < c.bufs then 1 else 0)
    && (forall f: nat :: Places(f, s) == if f < s.flow.frameCounter then 1 else 0)
    && s.past.displayed == s.past.published + (if s.main.Publish? then [s.main.job.frame] else [])
  }

  lemma {:induction false} OccursIota(x: nat, lo: nat, n: nat)
    ensures Occurs(x, seq(n, i => lo + i)) == if lo <= x < lo + n then 1 else 0
    decreases n
  {
    var s := seq(n, i => lo + i);
    if n > 0 {
      assert s[1..] == seq(n - 1, i => lo + 1 + i);
      OccursIota(x, lo + 1, n - 1);
    }
  }

  lemma {:induction false} IdleCrew(p: Probe, n: nat)
    ensures CrewCount(p, seq(n, _ => Idle)) == 0
  {
    if n > 0 {
      assert seq(n, _ => Idle)[1..] == seq(n - 1, _ => Idle);
      IdleCrew(p, n - 1);
    }
  }

  lemma BooksInitially(c: Config)
    requires ValidConfig(c)
    ensures Books(c, Initial(c))
  {
    var s := Initial(c);
    IdleCrew(AnyJob, c.threads);
    forall b: nat
      ensures Owners(b, s) == if b < c.bufs then 1 else 0
    {
      IdleCrew(BufIs(b), c.threads);
      OccursIota(b, 0, c.bufs);
      assert s.flow.free == seq(c.bufs, i => 0 + i);
    }
    forall f: nat
      ensures Places(f, s) == 0
    {
      IdleCrew(FrameIs(f), c.threads);
    }
  }

  lemma BooksWorker(c: Config, s: State, i: nat)
    requires Books(c, s) && WorkerEnabled(s, i)
    ensures Books(c, WorkerNext(s, i))
  {
    var t := WorkerNext(s, i);
    CrewConserves(AnyJob, s.flow, i, s.flags.inference, s.npu.tctxs[i]);
    forall b: nat
      ensures Owners(b, t) == Owners(b, s)
    {
      CrewConserves(BufIs(b), s.flow, i, s.flags.inference, s.npu.tctxs[i]);
    }
    forall f: nat
      ensures Places(f, t) == Places(f, s)
    {
      CrewConserves(FrameIs(f), s.flow, i, s.flags.inference, s.npu.tctxs[i]);
    }
  }

  /** Main steps that touch the traffic, one lemma a kind. */
  lemma BooksSubmit(c: Config, s: State)
    requires ValidConfig(c) && Books(c, s) && s.main.Submit?
    ensures Books(c, FlowNext(c, s))
  {
    var t := FlowNext(c, s);
    var job := Job(s.main.buf, s.flow.frameCounter);
    SubmitCounts(AnyJob, s.flow, Work(job));
    forall b: nat
      ensures Owners(b, t) == Owners(b, s)
    {
      SubmitCounts(BufIs(b), s.flow, Work(job));
    }
    forall f: nat
      ensures Places(f, t) == Places(f, s) + if f == s.flow.frameCounter then 1 else 0
    {
      SubmitCounts(FrameIs(f), s.flow, Work(job));
    }
  }

  lemma BooksSentinel(c: Config, s: State)
    requires Books(c, s) && s.main.PushSentinels?
    ensures Books(c, TeardownNext(c, s))
  {
    var t := TeardownNext(c, s);
    SubmitCounts(AnyJob, s.flow, Sentinel);
    forall b: nat
      ensures Owners(b, t) == Owners(b, s)
    {
      SubmitCounts(BufIs(b), s.flow, Sentinel);
    }
    forall f: nat
      ensures Places(f, t) == Places(f, s)
    {
      SubmitCounts(FrameIs(f), s.flow, Sentinel);
    }
  }

  lemma BooksCollect(c: Config, s: State, ok: bool)
    requires ValidConfig(c) && Books(c, s) && MainEnabled(c, s)
    requires s.main.WaitResult? || (s.main.Drain? && s.flow.inFlight > 0)
    ensures Books(c, MainNext(c, s, ok))
  {
    var t := MainNext(c, s, ok);
    CollectCounts(AnyJob, s.flow);
    forall b: nat
      ensures Owners(b, t) == Owners(b, s)
    {
      CollectCounts(BufIs(b), s.flow);
    }
    forall f: nat
      ensures Places(f, t) == Places(f, s)
    {
      CollectCounts(FrameIs(f), s.flow);
    }
  }

  lemma BooksRelease(c: Config, s: State, ok: bool)
    requires ValidConfig(c) && Books(c, s)
    requires s.main.Recycle? || s.main.DrainRelease?
    ensures Books(c, MainNext(c, s, ok))
  {
    var t := MainNext(c, s, ok);
    forall b: nat
      ensures Owners(b, t) == Owners(b, s)
    {
      OccursSnoc(b, s.flow.free, s.main.job.buf);
    }
    forall f: nat
      ensures Places(f, t) == Places(f, s)
    {
      OccursSnoc(f, s.past.drained, s.main.job.frame);
    }
  }

  lemma BooksShow(c: Config, s: State)
    requires Books(c, s) && (s.main.Show? || s.main.Publish? || s.main.Acquire?) && MainEnabled(c, s)
    ensures Books(c, FlowNext(c, s))
  {
    var t := FlowNext(c, s);
    assert forall b: nat :: Owners(b, t) == Owners(b, s);
    forall f: nat
      ensures Places(f, t) == Places(f, s)
    {
      if s.main.Show? {
        OccursSnoc(f, s.past.displayed, s.main.job.frame);
      }
    }
  }

  predicate Quiet(s: State) {
    match s.main
    case Head => true
    case CheckBlackout => true
    case ClearHandshake => true
    case Drain => s.flow.inFlight <= 0
    case Destroy(_) => true
    case AnnounceDark => true
    case DarkResume => true
    case DarkShutdown => true
    case LeaveDark => true
    case Init => true
    case Dup(_) => true
    case Assign(_) => true
    case AnnounceResume => true
    case ClearBlackout => true
    case ClearResume => true
    case StopControl => true
    case Join(_) => true
    case FinalDestroy(_) => true
    case _ => false
  }

  /** A main step that neither touches the traffic nor shows or drains a frame. */
  lemma QuietKeeps(c: Config, s: State, ok: bool)
    requires Quiet(s) && MainEnabled(c, s)
    ensures var t := MainNext(c, s, ok);
      && t.flow == s.flow && !t.main.Submit? && MainBufs(t.main) == 0
      && !t.main.Show? && !t.main.DrainRelease? && !t.main.Publish? && !t.main.Recycle?
      && t.past.displayed == s.past.displayed && t.past.drained == s.past.drained
      && t.past.published == s.past.published
  {
  }

  lemma QuietFits(c: Config, s: State, ok: bool)
    requires ValidConfig(c) && Quiet(s) && MainEnabled(c, s) && InFlightFits(c, s)
    ensures InFlightFits(c, MainNext(c, s, ok))
  {
  }

  lemma BooksQuiet(c: Config, s: State, ok: bool)
    requires ValidConfig(c) && Books(c, s) && Quiet(s) && MainEnabled(c, s)
    ensures Books(c, MainNext(c, s, ok))
  {
    QuietKeeps(c, s, ok);
    QuietFits(c, s, ok);
    var t := MainNext(c, s, ok);
    BooksFrame(c, s, t);
  }

  /** Books only reads the traffic, the three logs and the main thread's hand. */
  lemma BooksFrame(c: Config, s: State, t: State)
    requires Books(c, s) && InFlightFits(c, t) && t.flow == s.flow
    requires t.main == s.main || (Quiet(s) && !t.main.Submit? && !t.main.Show? && !t.main.DrainRelease?
                                  && !t.main.Publish? && !t.main.Recycle?)
    requires t.past.displayed == s.past.displayed && t.past.drained == s.past.drained
    requires t.past.published == s.past.published
    ensures Books(c, t)
  {
    assert forall b: nat :: Owners(b, t) == Owners(b, s);
    assert forall f: nat :: Places(f, t) == Places(f, s);
  }

  lemma BooksStep(c: Config, s: State, a: Action)
    requires ValidConfig(c) && Books(c, s) && Enabled(c, s, a)
    ensures Books(c, Apply(c, s, a))
  {
    match a
    case MainStep(ok) =>
      if Quiet(s) {
        BooksQuiet(c, s, ok);
      } else if s.main.Submit? {
        BooksSubmit(c, s);
      } else if s.main.PushSentinels? {
        BooksSentinel(c, s);
      } else if s.main.WaitResult? || s.main.Drain? {
        BooksCollect(c, s, ok);
      } else if s.main.Recycle? || s.main.DrainRelease? {
        BooksRelease(c, s, ok);
      } else {
        BooksShow(c, s);
      }
    case WorkerStep(i) => BooksWorker(c, s, i);
    case Receive(cmd) => BooksFrame(c, s, ReceiveNext(s, cmd));
    case ControlStep => BooksFrame(c, s, ControlNext(s));
    case ControlTimeout => BooksFrame(c, s, TimeoutNext(s));
  }

  /** pool.acquire() never has to wait: whenever the main thread is about to
      acquire, the free list is not empty. */
  lemma AcquireNeverBlocks(c: Config, s: State)
    requires ValidConfig(c) && Books(c, s) && s.main.Acquire?
    ensures MainEnabled(c, s)
  {
    match s.main.site
    case Prefill(_) =>
    case Refill(_) =>
    case Steady =>
  }
}
