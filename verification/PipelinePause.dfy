/** Pausing: when a worker takes the NPU path, and that none does while
    inference is off. */
module PipelinePause {
  import opened PipelineModel

  /** Worker i takes the NPU path in this step. */
  ghost predicate Enters(c: Config, s: State, a: Action, i: nat)
    requires Enabled(c, s, a)
  {
    var t := Apply(c, s, a);
    i < |s.flow.workers| && i < |t.flow.workers| && t.flow.workers[i].Inferring? && !s.flow.workers[i].Inferring?
  }

  lemma MainLeavesWorkers(c: Config, s: State, ok: bool)
    requires MainEnabled(c, s)
    ensures MainNext(c, s, ok).flow.workers == s.flow.workers
  {
    if Flowing(s.main) {
    } else if Blacking(s.main) {
    } else if Closing(s.main) {
    } else {
    }
  }

  /** A worker takes the NPU path exactly in its own step, from holding a job, with
      inference on; with inference off that step hands the job on unprocessed. */
  lemma EntersIff(c: Config, s: State, a: Action, i: nat)
    requires Enabled(c, s, a) && i < |s.flow.workers|
    ensures Enters(c, s, a, i) <==> a == WorkerStep(i) && s.flow.workers[i].Holding? && s.flags.inference
    ensures a == WorkerStep(i) && s.flow.workers[i].Holding? && !s.flags.inference ==>
              Apply(c, s, a).flow.workers[i] == Ready(s.flow.workers[i].job)
  {
    match a
    case MainStep(ok) => MainLeavesWorkers(c, s, ok);
    case _ =>
  }

  predicate TurnsOn(s: State, a: Action) {
    a == Receive(ResumeYolo) || (a.MainStep? && s.main.AnnounceResume?)
  }

  predicate TurnsOff(a: Action) {
    a == Receive(PauseYolo) || a == Receive(Blackout)
  }

  /** resume_yolo and the end of a re-init turn inference on, pause_yolo and
      blackout turn it off, and nothing else touches it. */
  lemma InferenceFollows(c: Config, s: State, a: Action)
    requires Enabled(c, s, a)
    ensures Apply(c, s, a).flags.inference ==
            if TurnsOn(s, a) then true else if TurnsOff(a) then false else s.flags.inference
  {
    if a.MainStep? {
      if Flowing(s.main) {
      } else if Blacking(s.main) {
      } else if Closing(s.main) {
      } else {
      }
    }
  }

  function WhilePaused(): Region {
    (s: State, a: Action) => !TurnsOn(s, a)
  }

  /** No worker has taken the NPU path between the two states. */
  ghost predicate NoneEntered(s: State, t: State) {
    && |t.flow.workers| == |s.flow.workers|
    && forall i :: 0 <= i < |t.flow.workers| && t.flow.workers[i].Inferring? ==> t.flow.workers[i] == s.flow.workers[i]
  }

  lemma PausedStep(c: Config, s: State, a: Action)
    requires Enabled(c, s, a) && !s.flags.inference
    ensures NoneEntered(s, Apply(c, s, a))
  {
    if a.MainStep? {
      MainLeavesWorkers(c, s, a.ok);
    }
  }

  lemma {:induction false} PausedRun(c: Config, s: State, acts: seq<Action>)
    requires !s.flags.inference && Stays(c, WhilePaused(), s, acts)
    ensures !End(c, s, acts).flags.inference && NoneEntered(s, End(c, s, acts))
    decreases |acts|
  {
    if acts != [] {
      InferenceFollows(c, s, acts[0]);
      PausedStep(c, s, acts[0]);
      PausedRun(c, Apply(c, s, acts[0]), acts[1..]);
    }
  }

  /** From a pause or blackout command on, through any run up to the next
      resume_yolo or announced re-init, inference stays off and no worker takes
      the NPU path: who is still on it was on it when the command came. */
  lemma NobodyEntersWhilePaused(c: Config, s: State, cmd: Command, acts: seq<Action>)
    requires (cmd.PauseYolo? || cmd.Blackout?) && Enabled(c, s, Receive(cmd))
    requires Stays(c, WhilePaused(), Apply(c, s, Receive(cmd)), acts)
    ensures var t := End(c, Apply(c, s, Receive(cmd)), acts); !t.flags.inference && NoneEntered(s, t)
  {
    PausedRun(c, Apply(c, s, Receive(cmd)), acts);
  }
}
