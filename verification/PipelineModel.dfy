/** The inference pipeline as an interleaving of atomic steps of one main
    thread, `threads` workers and one control thread.  The atomics of the
    shared state are read and written one at a time; a critical section of the
    lifecycle mutex is one step. */
module PipelineModel {
  import opened Options

  /** N_THREADS and N_BUF. */
  datatype Config = Config(threads: nat, bufs: nat)

  ghost predicate ValidConfig(c: Config) {
    1 <= c.threads <= c.bufs
  }

  /** A captured frame on its way through the pipeline, with the buffer that holds it. */
  datatype Job = Job(buf: nat, frame: nat)

  /** What infer_q carries: a job, or the shutdown sentinel (a negative buffer index). */
  datatype Token = Work(job: Job) | Sentinel

  /** Where an inference thread is in its loop.  `Inferring` is the NPU path,
      with the context handle the thread uses there. */
  datatype Worker = Idle | Holding(job: Job) | Inferring(job: Job, ctx: nat) | Ready(job: Job) | Exited

  /** The three callers of capture_and_submit. */
  datatype Site = Prefill(done: nat) | Refill(done: nat) | Steady

  /** Program counter of the main thread, with the locals that matter. */
  datatype Main =
    // capture_and_submit
    | Acquire(site: Site) | Submit(site: Site, buf: nat)
    // top of the loop and the steady iteration
    | Head | CheckBlackout | WaitResult | Show(job: Job) | Publish(job: Job) | Recycle(job: Job)
    // blackout
    | ClearHandshake | Drain | DrainRelease(job: Job) | Destroy(k: nat) | AnnounceDark
    | DarkResume | DarkShutdown | LeaveDark
    // re-initialisation
    | Init | Dup(k: nat) | Assign(k: nat) | AnnounceResume | ClearBlackout | ClearResume
    // teardown
    | StopControl | PushSentinels(k: nat) | Join(k: nat) | FinalDestroy(k: nat) | Finished

  /** Program counter of the control thread inside dispatchCommand. */
  datatype Control = Listening | BlackoutStore | BlackoutWait | ResumeStore | ResumeWait | Stopped

  datatype Command = PauseYolo | ResumeYolo | Shutdown | Blackout | Resume | OtherCommand

  datatype Flags = Flags(inference: bool, shutdown: bool, blackoutReq: bool, active: bool,
                         resumeReq: bool, resumeDone: bool)

  /** Queues, workers, buffer pool and main's counters. */
  datatype Traffic = Traffic(
    workers: seq<Worker>, inferQ: seq<Token>, resultQ: seq<Job>, free: seq<nat>,
    inFlight: int, frameCounter: nat)

  /** RKNN contexts, named by handles; `alive` holds the handles not destroyed. */
  datatype Npu = Npu(
    ctxs: seq<nat>,          // main's context handles
    tctxs: seq<nat>,         // the handle each worker uses
    alive: set<nat>, nextHandle: nat,
    badDup: set<nat>)        // history: contexts whose rknn_dup_context failed in the latest re-init

  /** What happened so far; no step reads it. */
  datatype History = History(
    displayed: seq<nat>, published: seq<nat>, drained: seq<nat>,
    cycle: nat,              // dark periods announced
    doneCycle: nat,          // dark period ended by the latest re-init
    commandCycle: nat,       // dark period in which the latest resume command was accepted
    resumeTimedOut: bool)

  datatype State = State(main: Main, control: Control, flow: Traffic, npu: Npu, flags: Flags, past: History)

  /** One scheduling decision.  `ok` is the outcome of rknn_init or rknn_dup_context. */
  datatype Action =
    | MainStep(ok: bool)
    | WorkerStep(i: nat)
    | Receive(cmd: Command)
    | ControlStep
    | ControlTimeout

  function Handles(n: nat): (r: set<nat>)
    ensures forall h: nat :: h in r <==> h < n
  {
    if n == 0 then {} else Handles(n - 1) + {n - 1}
  }

  function Initial(c: Config): State {
    State(Acquire(Prefill(0)), Listening,
          Traffic(seq(c.threads, _ => Idle), [], [], seq(c.bufs, i => i), 0, 0),
          Npu(seq(c.threads, i => i), seq(c.threads, i => i), Handles(c.threads), c.threads, {}),
          Flags(true, false, false, false, false, false),
          History([], [], [], 0, 0, 0, false))
  }

  predicate MainEnabled(c: Config, s: State) {
    match s.main
    case Acquire(_) => s.flow.free != []
    case WaitResult => s.flow.resultQ != []
    case Drain => s.flow.inFlight <= 0 || s.flow.resultQ != []
    case StopControl => s.control == Listening
    case Join(k) => k < |s.flow.workers| ==> s.flow.workers[k].Exited?
    case Finished => false
    case _ => true
  }

  predicate WorkerEnabled(s: State, i: nat) {
    && i < |s.flow.workers| && i < |s.npu.tctxs|
    && !s.flow.workers[i].Exited?
    && (s.flow.workers[i].Idle? ==> s.flow.inferQ != [])
  }

  predicate Enabled(c: Config, s: State, a: Action) {
    match a
    case MainStep(_) => MainEnabled(c, s)
    case WorkerStep(i) => WorkerEnabled(s, i)
    case Receive(_) => s.control == Listening
    case ControlStep =>
      match s.control {
        case BlackoutStore => true
        case ResumeStore => true
        case BlackoutWait => s.flags.active
        case ResumeWait => s.flags.resumeDone
        case _ => false
      }
    case ControlTimeout =>
      (s.control == BlackoutWait && !s.flags.active) || (s.control == ResumeWait && !s.flags.resumeDone)
  }

  /** One step of inference_thread. */
  function CrewNext(f: Traffic, i: nat, inference: bool, ctx: nat): Traffic
    requires i < |f.workers| && (f.workers[i].Idle? ==> f.inferQ != [])
  {
    match f.workers[i]
    case Idle =>
      var phase := if f.inferQ[0].Work? then Holding(f.inferQ[0].job) else Exited;
      f.(workers := f.workers[i := phase], inferQ := f.inferQ[1..])
    case Holding(job) =>
      f.(workers := f.workers[i := if inference then Inferring(job, ctx) else Ready(job)])
    case Inferring(job, _) => f.(workers := f.workers[i := Ready(job)])
    case Ready(job) => f.(workers := f.workers[i := Idle], resultQ := f.resultQ + [job])
    case Exited => f
  }

  function WorkerNext(s: State, i: nat): State
    requires WorkerEnabled(s, i)
  {
    s.(flow := CrewNext(s.flow, i, s.flags.inference, s.npu.tctxs[i]))
  }

  function AfterSubmit(c: Config, site: Site): Main {
    match site
    case Prefill(k) => if k + 1 < c.threads then Acquire(Prefill(k + 1)) else Head
    case Refill(k) => if k + 1 < c.threads then Acquire(Refill(k + 1)) else Head
    case Steady => Head
  }

  function Submitted(f: Traffic, t: Token): Traffic {
    f.(inferQ := f.inferQ + [t])
  }

  /** Taking the oldest result; in_flight goes down with it. */
  function Collected(f: Traffic): Traffic
    requires f.resultQ != []
  {
    f.(resultQ := f.resultQ[1..], inFlight := f.inFlight - 1)
  }

  function Released(f: Traffic, buf: nat): Traffic {
    f.(free := f.free + [buf])
  }

  /** capture_and_submit and the steady loop body. */
  function FlowNext(c: Config, s: State): State
    requires MainEnabled(c, s)
  {
    match s.main
    case Acquire(site) =>
      s.(main := Submit(site, s.flow.free[0]), flow := s.flow.(free := s.flow.free[1..]))
    case Submit(site, buf) =>
      s.(main := AfterSubmit(c, site),
         flow := Submitted(s.flow, Work(Job(buf, s.flow.frameCounter)))
                 .(frameCounter := s.flow.frameCounter + 1, inFlight := s.flow.inFlight + 1))
    case Head => s.(main := if s.flags.shutdown then StopControl else CheckBlackout)
    case CheckBlackout => s.(main := if s.flags.blackoutReq then ClearHandshake else WaitResult)
    case WaitResult => s.(main := Show(s.flow.resultQ[0]), flow := Collected(s.flow))
    case Show(job) =>
      s.(main := Publish(job), past := s.past.(displayed := s.past.displayed + [job.frame]))
    case Publish(job) =>
      s.(main := Recycle(job), past := s.past.(published := s.past.published + [job.frame]))
    case Recycle(job) => s.(main := Acquire(Steady), flow := Released(s.flow, job.buf))
    case _ => s
  }

  /** rknn_destroy(ctxs[k]). */
  function Destroyed(n: Npu, k: nat): Npu
    requires k < |n.ctxs|
  {
    n.(alive := n.alive - {n.ctxs[k]})
  }

  /** A successful rknn_init or rknn_dup_context into ctxs[k]. */
  function Created(n: Npu, k: nat): Npu
    requires k < |n.ctxs|
  {
    n.(ctxs := n.ctxs[k := n.nextHandle], alive := n.alive + {n.nextHandle}, nextHandle := n.nextHandle + 1)
  }

  /** From noticing a blackout request to leaving the dark loop. */
  function BlackoutNext(c: Config, s: State): State
    requires MainEnabled(c, s)
  {
    match s.main
    case ClearHandshake => s.(main := Drain, flags := s.flags.(active := false, resumeDone := false))
    case Drain =>
      if s.flow.inFlight > 0 then s.(main := DrainRelease(s.flow.resultQ[0]), flow := Collected(s.flow))
      else s.(main := Destroy(0))
    case DrainRelease(job) =>
      s.(main := Drain, flow := Released(s.flow, job.buf),
         past := s.past.(drained := s.past.drained + [job.frame]))
    case Destroy(k) =>
      if k < c.threads && k < |s.npu.ctxs| then s.(main := Destroy(k + 1), npu := Destroyed(s.npu, k))
      else s.(main := AnnounceDark)
    case AnnounceDark =>
      s.(main := DarkResume, flags := s.flags.(active := true), past := s.past.(cycle := s.past.cycle + 1))
    case DarkResume => s.(main := if s.flags.resumeReq then LeaveDark else DarkShutdown)
    case DarkShutdown => s.(main := if s.flags.shutdown then LeaveDark else DarkResume)
    case LeaveDark => s.(main := if s.flags.shutdown then StopControl else Init)
    case _ => s
  }

  /** Re-initialising the contexts and publishing the resume handshake.  The
      result of rknn_init is checked, that of rknn_dup_context is not. */
  function ResumeNext(c: Config, s: State, ok: bool): State {
    match s.main
    case Init =>
      if ok && |s.npu.ctxs| > 0 then s.(main := Dup(1), npu := Created(s.npu, 0).(badDup := {}))
      else s.(main := StopControl, flags := s.flags.(shutdown := true))
    case Dup(k) =>
      if k < c.threads && k < |s.npu.ctxs| then
        s.(main := Dup(k + 1),
           npu := if ok then Created(s.npu, k) else s.npu.(badDup := s.npu.badDup + {k}))
      else s.(main := Assign(0))
    case Assign(k) =>
      if k < c.threads && k < |s.npu.ctxs| && k < |s.npu.tctxs| then
        s.(main := Assign(k + 1), npu := s.npu.(tctxs := s.npu.tctxs[k := s.npu.ctxs[k]]))
      else s.(main := AnnounceResume)
    case AnnounceResume =>
      s.(main := ClearBlackout, flags := s.flags.(active := false, inference := true, resumeDone := true),
         past := s.past.(doneCycle := s.past.cycle))
    case ClearBlackout => s.(main := ClearResume, flags := s.flags.(blackoutReq := false))
    case ClearResume => s.(main := Acquire(Refill(0)), flags := s.flags.(resumeReq := false))
    case _ => s
  }

  function TeardownNext(c: Config, s: State): State {
    match s.main
    case StopControl => s.(main := PushSentinels(0), control := Stopped)
    case PushSentinels(k) =>
      if k < c.threads then s.(main := PushSentinels(k + 1), flow := Submitted(s.flow, Sentinel))
      else s.(main := Join(0))
    case Join(k) => s.(main := if k < c.threads then Join(k + 1) else FinalDestroy(0))
    case FinalDestroy(k) =>
      if k < c.threads && k < |s.npu.ctxs| then s.(main := FinalDestroy(k + 1), npu := Destroyed(s.npu, k))
      else s.(main := Finished)
    case _ => s
  }

  predicate Flowing(m: Main) {
    m.Acquire? || m.Submit? || m.Head? || m.CheckBlackout? || m.WaitResult? || m.Show? || m.Publish? || m.Recycle?
  }

  /** The dark period proper: announced, and not yet re-initialising. */
  predicate Dark(m: Main) {
    m.DarkResume? || m.DarkShutdown? || m.LeaveDark?
  }

  predicate Blacking(m: Main) {
    m.ClearHandshake? || m.Drain? || m.DrainRelease? || m.Destroy? || m.AnnounceDark? || Dark(m)
  }

  /** Re-initialisation in progress. */
  predicate Reviving(m: Main) {
    m.Init? || m.Dup? || m.Assign? || m.AnnounceResume?
  }

  predicate Closing(m: Main) {
    m.StopControl? || m.PushSentinels? || m.Join? || m.FinalDestroy? || m.Finished?
  }

  function MainNext(c: Config, s: State, ok: bool): State
    requires MainEnabled(c, s)
  {
    if Flowing(s.main) then FlowNext(c, s)
    else if Blacking(s.main) then BlackoutNext(c, s)
    else if Closing(s.main) then TeardownNext(c, s)
    else ResumeNext(c, s, ok)
  }

  /** The first step of a command: everything up to its first blocking or visible store. */
  function ReceiveNext(s: State, cmd: Command): State {
    match cmd
    case PauseYolo => s.(flags := s.flags.(inference := false))
    case ResumeYolo => s.(flags := s.flags.(inference := true))
    case Shutdown => s.(flags := s.flags.(shutdown := true))
    case Blackout => s.(flags := s.flags.(inference := false), control := BlackoutStore)
    case Resume =>
      if s.flags.active then s.(control := ResumeStore, past := s.past.(commandCycle := s.past.cycle)) else s
    case OtherCommand => s
  }

  function ControlNext(s: State): State {
    match s.control
    case BlackoutStore => s.(flags := s.flags.(blackoutReq := true), control := BlackoutWait)
    case ResumeStore => s.(flags := s.flags.(resumeReq := true), control := ResumeWait)
    case BlackoutWait | ResumeWait => s.(control := Listening)     // the ok reply
    case _ => s
  }

  function TimeoutNext(s: State): State {
    s.(control := Listening,
       past := s.past.(resumeTimedOut := s.past.resumeTimedOut || s.control == ResumeWait))
  }

  function Apply(c: Config, s: State, a: Action): State
    requires Enabled(c, s, a)
  {
    match a
    case MainStep(ok) => MainNext(c, s, ok)
    case WorkerStep(i) => WorkerNext(s, i)
    case Receive(cmd) => ReceiveNext(s, cmd)
    case ControlStep => ControlNext(s)
    case ControlTimeout => TimeoutNext(s)
  }

  /** The state an interleaving leads to, if every step of it was enabled. */
  function Exec(c: Config, s: State, acts: seq<Action>): Option<State>
    decreases |acts|
  {
    if acts == [] then Some(s)
    else if Enabled(c, s, acts[0]) then Exec(c, Apply(c, s, acts[0]), acts[1..])
    else None
  }

  /** A stretch of a run, by the states it is in and the steps it takes there. */
  type Region = (State, Action) -> bool

  /** `acts` is a run from `s` all of whose steps are taken in the region; the
      state it ends in may lie outside. */
  predicate Stays(c: Config, inside: Region, s: State, acts: seq<Action>): (b: bool)
    ensures b ==> Exec(c, s, acts).Some?
    decreases |acts|
  {
    acts == [] ||
    (Enabled(c, s, acts[0]) && inside(s, acts[0]) && Stays(c, inside, Apply(c, s, acts[0]), acts[1..]))
  }

  /** The state in which a run ends. */
  function End(c: Config, s: State, acts: seq<Action>): State
    requires Exec(c, s, acts).Some?
  {
    Exec(c, s, acts).value
  }

  lemma {:induction false} ExecAppend(c: Config, s: State, acts: seq<Action>, more: seq<Action>)
    requires Exec(c, s, acts).Some?
    ensures Exec(c, s, acts + more) == Exec(c, End(c, s, acts), more)
    decreases |acts|
  {
    if acts == [] {
      assert acts + more == more;
    } else {
      assert (acts + more)[1..] == acts[1..] + more;
      ExecAppend(c, Apply(c, s, acts[0]), acts[1..], more);
    }
  }

  /** Two stretches in a row are one. */
  lemma {:induction false} StaysAppend(c: Config, inside: Region, s: State, acts: seq<Action>, more: seq<Action>)
    requires Stays(c, inside, s, acts) && Stays(c, inside, End(c, s, acts), more)
    ensures Stays(c, inside, s, acts + more)
    ensures End(c, s, acts + more) == End(c, End(c, s, acts), more)
    decreases |acts|
  {
    ExecAppend(c, s, acts, more);
    if acts == [] {
      assert acts + more == more;
    } else {
      assert (acts + more)[1..] == acts[1..] + more;
      StaysAppend(c, inside, Apply(c, s, acts[0]), acts[1..], more);
    }
  }

  lemma StaysOne(c: Config, inside: Region, s: State, a: Action)
    requires Enabled(c, s, a) && inside(s, a)
    ensures Stays(c, inside, s, [a]) && End(c, s, [a]) == Apply(c, s, a)
  {
    assert [a][1..] == [];
    assert Exec(c, Apply(c, s, a), []) == Some(Apply(c, s, a));
  }

  /** One more step of a stretch. */
  lemma StaysNext(c: Config, inside: Region, s: State, acts: seq<Action>, a: Action)
    requires Stays(c, inside, s, acts) && Enabled(c, End(c, s, acts), a) && inside(End(c, s, acts), a)
    ensures Stays(c, inside, s, acts + [a]) && End(c, s, acts + [a]) == Apply(c, End(c, s, acts), a)
  {
    StaysOne(c, inside, End(c, s, acts), a);
    StaysAppend(c, inside, s, acts, [a]);
  }

  /** `s` is reached by some interleaving. */
  ghost predicate Reachable(c: Config, s: State) {
    exists acts :: Exec(c, Initial(c), acts) == Some(s)
  }
}
