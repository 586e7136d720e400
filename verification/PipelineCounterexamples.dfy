/** Concrete runs showing what the pipeline does not promise: a blackout request
    can be lost, a timed-out resume wait breaks the handshake, and an unchecked
    duplication failure is used. */
module PipelineCounterexamples {
  import opened Options
  import opened PipelineModel
  import opened PipelineHandshake

  /** One more step of a reachable state is reachable. */
  lemma Go(c: Config, s: State, a: Action) returns (t: State)
    requires Reachable(c, s) && Enabled(c, s, a)
    ensures t == Apply(c, s, a) && Reachable(c, t)
  {
    t := Apply(c, s, a);
    var acts :| Exec(c, Initial(c), acts) == Some(s);
    ExecAppend(c, Initial(c), acts, [a]);
    assert Exec(c, s, [a]) == Exec(c, t, [a][1..]);
  }

  // One step of the main thread, by the part of its loop it is in.

  lemma GoFlow(c: Config, s: State) returns (t: State)
    requires Reachable(c, s) && Flowing(s.main) && MainEnabled(c, s)
    ensures t == FlowNext(c, s) && Reachable(c, t)
  {
    t := Go(c, s, MainStep(true));
  }

  lemma GoBlackout(c: Config, s: State) returns (t: State)
    requires Reachable(c, s) && Blacking(s.main) && MainEnabled(c, s)
    ensures t == BlackoutNext(c, s) && Reachable(c, t)
  {
    t := Go(c, s, MainStep(true));
  }

  lemma GoRevive(c: Config, s: State, ok: bool) returns (t: State)
    requires Reachable(c, s) && (Reviving(s.main) || s.main.ClearBlackout? || s.main.ClearResume?)
    ensures t == ResumeNext(c, s, ok) && Reachable(c, t)
  {
    t := Go(c, s, MainStep(ok));
  }

  lemma GoWorker(c: Config, s: State, i: nat) returns (t: State)
    requires Reachable(c, s) && WorkerEnabled(s, i)
    ensures t == WorkerNext(s, i) && Reachable(c, t)
  {
    t := Go(c, s, WorkerStep(i));
  }

  lemma GoReceive(c: Config, s: State, cmd: Command) returns (t: State)
    requires Reachable(c, s) && s.control == Listening
    ensures t == ReceiveNext(s, cmd) && Reachable(c, t)
  {
    t := Go(c, s, Receive(cmd));
  }

  lemma GoControl(c: Config, s: State) returns (t: State)
    requires Reachable(c, s) && Enabled(c, s, ControlStep)
    ensures t == ControlNext(s) && Reachable(c, t)
  {
    t := Go(c, s, ControlStep);
  }

  // Stretches of a single-worker run, from any state.

  /** The worker, told not to infer, relays the one queued job. */
  lemma GoRelay(c: Config, r: State, job: Job) returns (s: State)
    requires Reachable(c, r) && !r.flags.inference && |r.npu.tctxs| == 1
    requires r.flow.workers == [Idle] && r.flow.inferQ == [Work(job)] && r.flow.resultQ == []
    ensures Reachable(c, s) && s == r.(flow := r.flow.(inferQ := [], resultQ := [job]))
  {
    s := GoWorker(c, r, 0);
    s := GoWorker(c, s, 0);
    s := GoWorker(c, s, 0);
  }

  /** Draining one result and destroying the one context. */
  lemma GoDarken(c: Config, r: State, f: nat) returns (s: State)
    requires c.threads == 1 && Reachable(c, r) && |r.npu.ctxs| == 1 && r.main == Drain
    requires r.flow.resultQ == [Job(0, f)] && r.flow.free == [] && r.flow.inFlight == 1
    ensures Reachable(c, s)
    ensures s == r.(main := DarkResume, flow := r.flow.(resultQ := [], free := [0], inFlight := 0),
                    npu := Destroyed(r.npu, 0), flags := r.flags.(active := true),
                    past := r.past.(drained := r.past.drained + [f], cycle := r.past.cycle + 1))
  {
    s := GoBlackout(c, r);
    s := GoBlackout(c, s);
    assert s.flow == r.flow.(resultQ := [], free := [0], inFlight := 0);
    s := GoBlackout(c, s);
    s := GoBlackout(c, s);
    s := GoBlackout(c, s);
    s := GoBlackout(c, s);
  }

  /** A resume command accepted in the dark, up to main starting the re-init. */
  lemma GoResume(c: Config, r: State) returns (s: State)
    requires Reachable(c, r) && r.main == DarkResume && r.control == Listening
    requires r.flags.active && !r.flags.shutdown
    ensures Reachable(c, s)
    ensures s == r.(main := Init, control := ResumeWait, flags := r.flags.(resumeReq := true),
                    past := r.past.(commandCycle := r.past.cycle))
  {
    s := GoReceive(c, r, Resume);
    s := GoControl(c, s);
    s := GoBlackout(c, s);
    s := GoBlackout(c, s);
  }

  /** Re-creating the one context and announcing it. */
  lemma GoRecreate(c: Config, r: State) returns (s: State)
    requires c.threads == 1 && Reachable(c, r) && r.main == Init && |r.npu.ctxs| == |r.npu.tctxs| == 1
    ensures Reachable(c, s)
    ensures s == r.(main := ClearBlackout,
                    npu := Npu([r.npu.nextHandle], [r.npu.nextHandle], r.npu.alive + {r.npu.nextHandle},
                               r.npu.nextHandle + 1, {}),
                    flags := r.flags.(active := false, inference := true, resumeDone := true),
                    past := r.past.(doneCycle := r.past.cycle))
  {
    s := GoRevive(c, r, true);
    s := GoRevive(c, s, true);
    assert s.npu.ctxs == [r.npu.nextHandle];
    s := GoRevive(c, s, true);
    s := GoRevive(c, s, true);
    s := GoRevive(c, s, true);
  }

  /** Submitting one frame and noticing a blackout request. */
  lemma GoRequest(c: Config, r: State) returns (s: State)
    requires c.threads == 1 && Reachable(c, r) && (r.main == Acquire(Prefill(0)) || r.main == Acquire(Refill(0)))
    requires r.control == Listening && r.flow.free == [0] && r.flow.inferQ == [] && !r.flags.shutdown
    ensures Reachable(c, s)
    ensures s == r.(main := Drain, control := BlackoutWait,
                    flow := r.flow.(inferQ := [Work(Job(0, r.flow.frameCounter))], free := [],
                                    frameCounter := r.flow.frameCounter + 1, inFlight := r.flow.inFlight + 1),
                    flags := r.flags.(inference := false, blackoutReq := true, active := false, resumeDone := false))
  {
    s := GoReceive(c, r, Blackout);
    s := GoControl(c, s);
    s := GoFlow(c, s);
    s := GoFlow(c, s);
    s := GoFlow(c, s);
    s := GoFlow(c, s);
    s := GoBlackout(c, s);
  }

  lemma GoStart(c: Config) returns (s: State)
    requires c == Config(1, 1)
    ensures Reachable(c, s)
    ensures s == State(Acquire(Prefill(0)), Listening,
                       Traffic([Idle], [], [], [0], 0, 0), Npu([0], [0], {0}, 1, {}),
                       Flags(true, false, false, false, false, false), History([], [], [], 0, 0, 0, false))
  {
    s := Initial(c);
    assert Exec(c, s, []) == Some(s);
    assert s.flow.free == [0] && s.flow.workers == [Idle] && s.npu.ctxs == [0] && s.npu.alive == {0};
  }

  /** A single-worker pipeline dark for the first time, the blackout command answered. */
  lemma GoDark(c: Config) returns (s: State)
    requires c == Config(1, 1)
    ensures Reachable(c, s)
    ensures s == State(DarkResume, Listening,
                       Traffic([Idle], [], [], [0], 0, 1), Npu([0], [0], {}, 1, {}),
                       Flags(false, false, true, true, false, false), History([], [], [0], 1, 0, 0, false))
  {
    s := GoStart(c);
    s := GoRequest(c, s);
    s := GoRelay(c, s, Job(0, 0));
    s := GoDarken(c, s, 0);
    s := GoControl(c, s);
  }

  /** A blackout command whose request is stored just before main clears the flag. */
  lemma GoLose(c: Config, r: State) returns (s: State)
    requires Reachable(c, r) && r.main == ClearBlackout && r.control == ResumeWait && r.flags.resumeDone
        && !r.flags.active
    ensures Reachable(c, s)
    ensures s == r.(main := ClearResume, control := BlackoutWait,
                    flags := r.flags.(inference := false, blackoutReq := false))
  {
    s := GoControl(c, r);
    s := GoReceive(c, s, Blackout);
    s := GoControl(c, s);
    s := GoRevive(c, s, true);
  }

  /** A blackout request can be lost: stored after the previous resume was
      announced, erased before the main thread looked at it.  The handler then
      waits for a reply that cannot come, with inference switched off. */
  lemma BlackoutCanBeLost() returns (s: State)
    ensures Reachable(Config(1, 1), s) && Hung(s) && !s.flags.inference && !s.past.resumeTimedOut
  {
    var c := Config(1, 1);
    s := GoDark(c);
    s := GoResume(c, s);
    s := GoRecreate(c, s);
    s := GoLose(c, s);
  }

  /** A resume whose wait times out, and a second resume accepted before main announces. */
  lemma GoResumeTwice(c: Config, r: State) returns (s: State)
    requires Reachable(c, r) && r.main == DarkResume && r.control == Listening
    requires r.flags.active && !r.flags.shutdown && !r.flags.resumeDone
    ensures Reachable(c, s)
    ensures s == r.(main := Init, control := ResumeStore, flags := r.flags.(resumeReq := true),
                    past := r.past.(commandCycle := r.past.cycle, resumeTimedOut := true))
  {
    s := GoResume(c, r);
    s := Go(c, s, ControlTimeout);
    s := GoReceive(c, s, Resume);
  }

  /** Main clears the requests, then the second resume stores its own and is answered. */
  lemma GoLeaveBehind(c: Config, r: State) returns (s: State)
    requires Reachable(c, r) && r.main == ClearBlackout && r.control == ResumeStore && r.flags.resumeDone
    ensures Reachable(c, s)
    ensures s == r.(main := Acquire(Refill(0)), control := Listening,
                    flags := r.flags.(blackoutReq := false, resumeReq := true))
  {
    s := GoRevive(c, r, true);
    s := GoRevive(c, s, true);
    s := GoControl(c, s);
    s := GoControl(c, s);
  }

  /** After a timed-out resume wait a second resume command can leave its request behind. */
  lemma GoStale(c: Config) returns (s: State)
    requires c == Config(1, 1)
    ensures Reachable(c, s)
    ensures s == State(Acquire(Refill(0)), Listening,
                       Traffic([Idle], [], [], [0], 0, 1), Npu([1], [1], {1}, 2, {}),
                       Flags(true, false, false, false, true, true), History([], [], [0], 1, 1, 1, true))
  {
    s := GoDark(c);
    s := GoResumeTwice(c, s);
    s := GoRecreate(c, s);
    s := GoLeaveBehind(c, s);
  }

  lemma GoLeaveDark(c: Config, r: State) returns (s: State)
    requires Reachable(c, r) && r.main == DarkResume && r.flags.resumeReq && !r.flags.shutdown
    ensures Reachable(c, s) && s == r.(main := Init)
  {
    s := GoBlackout(c, r);
    s := GoBlackout(c, s);
  }

  /** Then the next blackout is over before it began: main leaves the dark loop
      on the old request, and the ok reply goes out while contexts are re-made. */
  lemma StaleResumeEndsBlackout() returns (s: State)
    ensures Reachable(Config(1, 1), s) && s.past.resumeTimedOut
    ensures s.control.BlackoutWait? && Enabled(Config(1, 1), s, ControlStep) && Reviving(s.main)
    ensures s.past.commandCycle < s.past.cycle
  {
    var c := Config(1, 1);
    s := GoStale(c);
    s := GoRequest(c, s);
    s := GoRelay(c, s, Job(0, 1));
    s := GoDarken(c, s, 1);
    s := GoLeaveDark(c, s);
  }

  // Two workers: an unchecked duplication failure.

  lemma GoPrefillPair(c: Config) returns (s: State)
    requires c == Config(2, 2)
    ensures Reachable(c, s)
    ensures s == State(Head, BlackoutWait,
                       Traffic([Idle, Idle], [Work(Job(0, 0)), Work(Job(1, 1))], [], [], 2, 2),
                       Npu([0, 1], [0, 1], {0, 1}, 2, {}),
                       Flags(false, false, true, false, false, false), History([], [], [], 0, 0, 0, false))
  {
    s := Initial(c);
    assert Exec(c, s, []) == Some(s);
    assert s.flow.free == [0, 1] && s.flow.workers == [Idle, Idle] && s.npu.ctxs == [0, 1] && s.npu.alive == {0, 1};
    s := GoFlow(c, s);
    s := GoFlow(c, s);
    s := GoFlow(c, s);
    s := GoFlow(c, s);
    s := GoReceive(c, s, Blackout);
    s := GoControl(c, s);
  }

  lemma GoRelayPair(c: Config, r: State, job: Job, rest: seq<Token>) returns (s: State)
    requires Reachable(c, r) && !r.flags.inference && |r.npu.tctxs| == 2
    requires r.flow.workers == [Idle, Idle] && r.flow.inferQ == [Work(job)] + rest
    ensures Reachable(c, s) && s == r.(flow := r.flow.(inferQ := rest, resultQ := r.flow.resultQ + [job]))
  {
    s := GoWorker(c, r, 0);
    s := GoWorker(c, s, 0);
    s := GoWorker(c, s, 0);
  }

  lemma GoDrainPair(c: Config, r: State) returns (s: State)
    requires c == Config(2, 2) && Reachable(c, r)
    requires r.main == Head && !r.flags.shutdown && r.flags.blackoutReq
    requires r.flow == Traffic([Idle, Idle], [], [Job(0, 0), Job(1, 1)], [], 2, 2)
    ensures Reachable(c, s)
    ensures s == r.(main := Destroy(0), flow := Traffic([Idle, Idle], [], [], [0, 1], 0, 2),
                    flags := r.flags.(active := false, resumeDone := false),
                    past := r.past.(drained := r.past.drained + [0] + [1]))
  {
    s := GoFlow(c, r);
    s := GoFlow(c, s);
    s := GoBlackout(c, s);
    s := GoBlackout(c, s);
    s := GoBlackout(c, s);
    assert s.flow == Traffic([Idle, Idle], [], [Job(1, 1)], [0], 1, 2);
    s := GoDrainLast(c, s);
  }

  lemma GoDrainLast(c: Config, r: State) returns (s: State)
    requires Reachable(c, r) && r.main == Drain
    requires r.flow == Traffic([Idle, Idle], [], [Job(1, 1)], [0], 1, 2)
    ensures Reachable(c, s)
    ensures s == r.(main := Destroy(0), flow := Traffic([Idle, Idle], [], [], [0, 1], 0, 2),
                    past := r.past.(drained := r.past.drained + [1]))
  {
    s := GoBlackout(c, r);
    s := GoBlackout(c, s);
    s := GoBlackout(c, s);
  }

  lemma GoDarkPair(c: Config) returns (s: State)
    requires c == Config(2, 2)
    ensures Reachable(c, s)
    ensures s.main == DarkResume && s.control == Listening
    ensures s.flow == Traffic([Idle, Idle], [], [], [0, 1], 0, 2) && s.npu == Npu([0, 1], [0, 1], {}, 2, {})
    ensures s.flags == Flags(false, false, true, true, false, false) && !s.past.resumeTimedOut
  {
    s := GoPrefillPair(c);
    s := GoRelayPair(c, s, Job(0, 0), [Work(Job(1, 1))]);
    s := GoRelayPair(c, s, Job(1, 1), []);
    s := GoDrainPair(c, s);
    s := GoBlackout(c, s);
    s := GoBlackout(c, s);
    assert s.npu.alive == {};
    s := GoBlackout(c, s);
    s := GoBlackout(c, s);
    s := GoControl(c, s);
  }

  /** Context 1 cannot be duplicated: its handle stays the destroyed one. */
  lemma GoFailedDup(c: Config, r: State) returns (s: State)
    requires c == Config(2, 2) && Reachable(c, r) && r.main == Init && r.npu == Npu([0, 1], [0, 1], {}, 2, {})
    ensures Reachable(c, s)
    ensures s == r.(main := Assign(0), npu := Npu([2, 1], [0, 1], {2}, 3, {1}))
  {
    s := GoRevive(c, r, true);
    s := GoRevive(c, s, false);
    assert s.npu == Npu([2, 1], [0, 1], {2}, 3, {1});
    s := GoRevive(c, s, true);
  }

  /** From the last assignment to the refill. */
  lemma GoAnnouncePair(c: Config, r: State) returns (s: State)
    requires c == Config(2, 2) && Reachable(c, r) && r.main == Assign(2)
    ensures Reachable(c, s)
    ensures s.main == Acquire(Refill(0)) && s.flow == r.flow && s.npu == r.npu
    ensures s.flags.inference && s.past.resumeTimedOut == r.past.resumeTimedOut
  {
    s := GoRevive(c, r, true);
    s := GoRevive(c, s, true);
    s := GoRevive(c, s, true);
    s := GoRevive(c, s, true);
  }

  /** The resume goes through all the same. */
  lemma GoAssignPair(c: Config, r: State) returns (s: State)
    requires c == Config(2, 2) && Reachable(c, r) && r.main == Assign(0) && r.npu == Npu([2, 1], [0, 1], {2}, 3, {1})
    ensures Reachable(c, s)
    ensures s.main == Acquire(Refill(0)) && s.flow == r.flow && s.npu == Npu([2, 1], [2, 1], {2}, 3, {1})
    ensures s.flags.inference && s.past.resumeTimedOut == r.past.resumeTimedOut
  {
    s := GoRevive(c, r, true);
    s := GoRevive(c, s, true);
    assert s.npu == Npu([2, 1], [2, 1], {2}, 3, {1});
    s := GoAnnouncePair(c, s);
  }

  /** The second worker takes the first job of the refill to the NPU. */
  lemma GoInferSecond(c: Config, r: State) returns (s: State)
    requires Reachable(c, r) && r.main == Acquire(Refill(0)) && r.flags.inference && |r.npu.tctxs| == 2
    requires r.flow.workers == [Idle, Idle] && r.flow.inferQ == [] && r.flow.free != []
    ensures Reachable(c, s) && s.npu == r.npu && s.past == r.past && |s.flow.workers| == 2
    ensures s.flow.workers[1].Inferring? && s.flow.workers[1].ctx == r.npu.tctxs[1]
  {
    s := GoFlow(c, r);
    s := GoFlow(c, s);
    s := GoWorker(c, s, 1);
    s := GoWorker(c, s, 1);
  }

  /** An unchecked rknn_dup_context failure puts a worker on the NPU path with a
      destroyed context. */
  lemma FailedDupIsUsed() returns (s: State)
    ensures Reachable(Config(2, 2), s) && !s.past.resumeTimedOut
    ensures |s.flow.workers| == 2 && s.flow.workers[1].Inferring? && s.flow.workers[1].ctx !in s.npu.alive
  {
    var c := Config(2, 2);
    s := GoDarkPair(c);
    s := GoResume(c, s);
    s := GoFailedDup(c, s);
    s := GoAssignPair(c, s);
    s := GoInferSecond(c, s);
  }
}
