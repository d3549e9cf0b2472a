/** What a fault does to a graph copy, told from the steps of the run: it is never forgotten, and nothing else makes a copy fail. */
module CopyFaults {
  import opened Descriptors
  import opened CopyProtocol
  import opened CopySafety
  import opened CopyResults
  import opened CopyProgress

  /** A storage call or a hook fails. */
  predicate IsFault(step: Step) {
    match step
    case Check(_, answer) => answer.Fault?
    case Find(_, ok) => !ok
    case Push(_, _, ok) => !ok
    case _ => false
  }

  /** A goroutine meets a fault, or gives up because its context is done. */
  predicate IsLoss(step: Step) {
    IsFault(step) || step.AwaitCancelled? || step.RestartCancelled?
  }

  ghost predicate HasLost(s: State, t: nat) {
    At(s, t, Ending(Failed)) || At(s, t, Returned(Failed))
  }

  lemma LossLoses(cfg: Config, s: State, step: Step)
    requires Enabled(cfg, s, step) && IsLoss(step)
    ensures HasLost(Apply(cfg, s, step), step.t)
  {
  }

  lemma LeaveGoSparesLost(cfg: Config, s: State, g: nat, ok: bool, t: nat)
    requires OpenGroupAt(s, g) && GroupOk(cfg, s, g) && HasLost(s, t)
    ensures HasLost(LeaveGo(s, g, ok), t)
  {
  }

  lemma OthersSpareLost(cfg: Config, s: State, step: Step, t: nat)
    requires Enabled(cfg, s, step) && !step.Abort? && !step.Join? && HasLost(s, t)
    ensures HasLost(Apply(cfg, s, step), t)
  {
  }

  lemma LostStaysLost(cfg: Config, s: State, step: Step, t: nat)
    requires Inv(cfg, s) && Enabled(cfg, s, step) && HasLost(s, t)
    ensures HasLost(Apply(cfg, s, step), t)
  {
    hide HasLost, GroupOk, TaskOk, LeaveGo;
    if step.Abort? {
      LeaveGoSparesLost(cfg, s, step.g, false, t);
    } else if step.Join? {
      LeaveGoSparesLost(cfg, s, step.g, MembersNil(s, step.g), t);
    } else {
      OthersSpareLost(cfg, s, step, t);
    }
  }

  /** A goroutine that met a fault or gave up returns an error, whatever comes. */
  lemma {:induction false} LossIsFinal(cfg: Config, states: seq<State>, steps: seq<Step>, j: nat, i: nat)
    requires IsRun(cfg, states, steps) && j < |steps| && IsLoss(steps[j]) && j < i < |states|
    ensures HasLost(states[i], steps[j].t)
  {
    hide Inv, Enabled, Apply, HasLost;
    assert Enabled(cfg, states[i - 1], steps[i - 1]);
    if i == j + 1 {
      LossLoses(cfg, states[j], steps[j]);
    } else {
      LossIsFinal(cfg, states, steps, j, i - 1);
      RunKeepsInv(cfg, states, steps, i - 1);
      LostStaysLost(cfg, states[i - 1], steps[i - 1], steps[j].t);
    }
  }

  lemma FinishedStays(cfg: Config, s: State, step: Step, g: nat)
    requires Enabled(cfg, s, step) && g < |s.groups| && s.groups[g].status.Finished?
    ensures g < |Apply(cfg, s, step).groups| && Apply(cfg, s, step).groups[g].status == s.groups[g].status
  {
  }

  /** A Go that returned without waiting for its goroutines has returned an error. */
  lemma {:induction false} AbortIsFinal(cfg: Config, states: seq<State>, steps: seq<Step>, j: nat, i: nat)
    requires IsRun(cfg, states, steps) && j < |steps| && steps[j].Abort? && j < i < |states|
    ensures steps[j].g < |states[i].groups| && states[i].groups[steps[j].g].status == Finished(false)
  {
    assert Enabled(cfg, states[i - 1], steps[i - 1]);
    if j + 1 < i {
      AbortIsFinal(cfg, states, steps, j, i - 1);
      hide Enabled, Apply;
      FinishedStays(cfg, states[i - 1], steps[i - 1], steps[j].g);
    }
  }

  /** A nil return means that nothing went wrong before it: no storage call or hook failed, nobody gave up and no Go was cut short. */
  lemma NilMeansNoFault(cfg: Config, states: seq<State>, steps: seq<Step>, i: nat, j: nat)
    requires IsRun(cfg, states, steps) && i < |states| && states[i].groups != [] && states[i].groups[0].status == Finished(true)
    requires j < i
    ensures !IsFault(steps[j]) && !steps[j].AwaitCancelled? && !steps[j].RestartCancelled? && !steps[j].Abort?
  {
    RunKeepsInv(cfg, states, steps, i);
    hide Inv;
    if IsLoss(steps[j]) {
      LossIsFinal(cfg, states, steps, j, i);
      NilMeansAllReturned(cfg, states[i], steps[j].t);
    }
    if steps[j].Abort? {
      AbortIsFinal(cfg, states, steps, j, i);
      NilReachesDown(cfg, states[i], steps[j].g);
    }
  }

  lemma LostNeverCloses(cfg: Config, s: State, t: nat, k: Key)
    requires Inv(cfg, s) && HasLost(s, t) && k in s.claimed && s.claimed[k] == t
    ensures k !in s.closes
  {
    hide GroupOk, TaskOk, StoreOk;
  }

  lemma LoserIsClaimant(cfg: Config, s: State, step: Step)
    requires Inv(cfg, s) && Enabled(cfg, s, step) && IsLoss(step)
    ensures step.t < |s.tasks|
    ensures s.tasks[step.t].job.Copy? ==> s.tasks[step.t].job.node in s.claimed && s.claimed[s.tasks[step.t].job.node] == step.t
  {
    assert TaskOk(cfg, s, step.t);
  }

  /** The done channel of a node is never closed once the goroutine that works on it has met a fault or given up. */
  lemma FaultNeverCloses(cfg: Config, states: seq<State>, steps: seq<Step>, j: nat, i: nat)
    requires IsRun(cfg, states, steps) && j < |steps| && IsLoss(steps[j]) && j < i < |states|
    ensures steps[j].t < |states[j].tasks|
    ensures states[j].tasks[steps[j].t].job.Copy? ==> states[j].tasks[steps[j].t].job.node !in states[i].closes
  {
    hide Inv, Enabled, Apply, HasLost;
    var t := steps[j].t;
    assert Enabled(cfg, states[j], steps[j]);
    RunKeepsInv(cfg, states, steps, j);
    LoserIsClaimant(cfg, states[j], steps[j]);
    if states[j].tasks[t].job.Copy? {
      ClaimsAreFinal(cfg, states, steps, j, i, states[j].tasks[t].job.node);
      RunKeepsInv(cfg, states, steps, i);
      LossIsFinal(cfg, states, steps, j, i);
      LostNeverCloses(cfg, states[i], t, states[j].tasks[t].job.node);
    }
  }

  /** While nothing has failed, only the caller can cancel. */
  lemma CleanCancel(cfg: Config, s: State, g: nat)
    requires Inv(cfg, s) && Clean(s) && Enabled(cfg, s, Cancel(g))
    ensures g == 0
  {
    assert GroupOk(cfg, s, g);
  }

  lemma {:induction false} CleanUntilCause(cfg: Config, states: seq<State>, steps: seq<Step>, i: nat)
    requires IsRun(cfg, states, steps) && i < |states|
    requires forall j :: 0 <= j < i ==> !IsFault(steps[j]) && steps[j] != Cancel(0)
    ensures Clean(states[i])
  {
    if i > 0 {
      CleanUntilCause(cfg, states, steps, i - 1);
      RunKeepsInv(cfg, states, steps, i - 1);
      hide Inv, Enabled, Apply, Clean;
      assert Enabled(cfg, states[i - 1], steps[i - 1]);
      if steps[i - 1].Cancel? {
        CleanCancel(cfg, states[i - 1], steps[i - 1].g);
      }
      StepKeepsClean(cfg, states[i - 1], steps[i - 1]);
    }
  }

  /** An error is never made up: a copy fails only if a storage call or hook failed, or the caller cancelled, before. */
  lemma FailureHasACause(cfg: Config, states: seq<State>, steps: seq<Step>, i: nat)
    requires IsRun(cfg, states, steps) && i < |states| && states[i].groups != [] && states[i].groups[0].status == Finished(false)
    ensures exists j :: 0 <= j < i && (IsFault(steps[j]) || steps[j] == Cancel(0))
  {
    if forall j :: 0 <= j < i ==> !IsFault(steps[j]) && steps[j] != Cancel(0) {
      CleanUntilCause(cfg, states, steps, i);
    }
  }

  // ---- Cancellation is never kept waiting ----

  /** The caller can cancel at any time, which changes nothing but the outermost context. */
  lemma CallerCanCancel(cfg: Config, s: State) returns (step: Step)
    requires Inv(cfg, s) && !s.groups[0].cancelled
    ensures Enabled(cfg, s, step) && Apply(cfg, s, step) == s.(groups := s.groups[0 := s.groups[0].(cancelled := true)])
  {
    step := Cancel(0);
  }

  /** A goroutine that waits for a successor or for a permit under a done context can give up at once, with no permit free and nobody else moving. */
  lemma WaitingGivesUp(cfg: Config, s: State, t: nat) returns (step: Step)
    requires Inv(cfg, s) && t < |s.tasks| && ContextDone(s, t) && (s.tasks[t].pc.Awaiting? || s.tasks[t].pc.Restarting?)
    ensures Enabled(cfg, s, step) && HasLost(Apply(cfg, s, step), t) && Apply(cfg, s, step).permits == s.permits
  {
    assert TaskOk(cfg, s, t);
    step := if s.tasks[t].pc.Awaiting? then AwaitCancelled(t) else RestartCancelled(t);
  }

  /** A Go that waits for a permit under a done context can return an error at once. */
  lemma SpawningGivesUp(cfg: Config, s: State, g: nat) returns (step: Step)
    requires Inv(cfg, s) && g < |s.groups| && s.groups[g].status.Running? && s.groups[g].cancelled && |s.groups[g].members| < |s.groups[g].items|
    ensures Enabled(cfg, s, step) && Apply(cfg, s, step).groups[g].status == Finished(false) && Apply(cfg, s, step).permits == s.permits
  {
    assert GroupOk(cfg, s, g);
    step := Abort(g);
  }
}
