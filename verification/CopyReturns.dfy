/** Whatever fails and whatever is cancelled: a copy returns, and leaves no goroutine behind. */
module CopyReturns {
  import opened Descriptors
  import opened Reachability
  import opened CopyProtocol
  import opened CopySafety
  import opened CopyResults
  import opened CopyProgress

  /** A group that failed was cancelled, or all of its members have returned. */
  ghost predicate FailedOk(s: State) {
    forall g: nat :: g < |s.groups| && s.groups[g].status == Finished(false) ==> s.groups[g].cancelled || MembersReturned(s, g)
  }

  /** Steps leave a finished group as it is, and only Abort and Join finish one. */
  lemma GroupSteps(cfg: Config, s: State, step: Step, g: nat)
    requires Enabled(cfg, s, step) && g < |s.groups|
    ensures var s' := Apply(cfg, s, step);
            && g < |s'.groups|
            && (s'.groups[g].status.Finished? ==>
                  && s'.groups[g].members == s.groups[g].members
                  && (s.groups[g].cancelled ==> s'.groups[g].cancelled)
                  && (s.groups[g].status == s'.groups[g].status
                      || (step == Abort(g) && s'.groups[g].cancelled) || (step == Join(g) && MembersReturned(s, g))))
  {
  }

  lemma NewGroupRuns(cfg: Config, s: State, step: Step, g: nat)
    requires Enabled(cfg, s, step) && |s.groups| <= g < |Apply(cfg, s, step).groups|
    ensures Apply(cfg, s, step).groups[g].status.Running?
  {
  }

  lemma StaysReturned(cfg: Config, s: State, step: Step, t: nat)
    requires Inv(cfg, s) && Enabled(cfg, s, step) && t < |s.tasks| && s.tasks[t].pc.Returned?
    ensures t < |Apply(cfg, s, step).tasks| && Apply(cfg, s, step).tasks[t] == s.tasks[t]
  {
    if step.Abort? || step.Join? {
      assert GroupOk(cfg, s, step.g);
    }
  }

  lemma StepKeepsFailed(cfg: Config, s: State, step: Step)
    requires Inv(cfg, s) && FailedOk(s) && Enabled(cfg, s, step)
    ensures FailedOk(Apply(cfg, s, step))
  {
    hide Inv, Enabled, Apply;
    var s' := Apply(cfg, s, step);
    forall g: nat | g < |s'.groups| && s'.groups[g].status == Finished(false) ensures s'.groups[g].cancelled || MembersReturned(s', g) {
      if g < |s.groups| {
        GroupSteps(cfg, s, step, g);
        if MembersReturned(s, g) {
          forall i | 0 <= i < |s.groups[g].members|
            ensures s'.groups[g].members[i] < |s'.tasks| && s'.tasks[s'.groups[g].members[i]].pc.Returned?
          {
            StaysReturned(cfg, s, step, s.groups[g].members[i]);
          }
        }
      } else {
        NewGroupRuns(cfg, s, step, g);
      }
    }
  }

  lemma {:induction false} RunKeepsFailed(cfg: Config, states: seq<State>, steps: seq<Step>, i: nat)
    requires IsRun(cfg, states, steps) && i < |states|
    ensures FailedOk(states[i])
  {
    hide Enabled, Apply, Inv, FailedOk;
    if i == 0 {
      StartsRunning(cfg);
    } else {
      RunKeepsFailed(cfg, states, steps, i - 1);
      RunKeepsInv(cfg, states, steps, i - 1);
      assert Enabled(cfg, states[i - 1], steps[i - 1]);
      StepKeepsFailed(cfg, states[i - 1], steps[i - 1]);
    }
  }

  lemma StartsRunning(cfg: Config)
    ensures FailedOk(Init(cfg))
  {
  }

  /** A step that brings no new fault and is not the caller's own cancellation. */
  ghost predicate Unprompted(s: State, step: Step) {
    match step
    case Check(_, answer) => !answer.Fault?
    case Find(_, ok) => ok
    case Push(_, _, ok) => ok
    case Cancel(g) => g < |s.groups| && (g == 0 ==> exists i :: 0 <= i < |s.groups[0].members| && HasFailed(s, s.groups[0].members[i]))
    case _ => true
  }

  ghost predicate GoesOn(cfg: Config, s: State, step: Step) {
    Enabled(cfg, s, step) && Unprompted(s, step)
  }

  /** In a cancelled group, cancellation reaches down to a goroutine that gives up or a call that can return. */
  lemma {:induction false} CancelledGoesOn(cfg: Config, s: State, g: nat) returns (step: Step)
    requires Inv(cfg, s) && Quiet(s) && g < |s.groups| && s.groups[g].cancelled && s.groups[g].status.Running?
    ensures GoesOn(cfg, s, step)
    decreases |s.groups| - g
  {
    assert GroupOk(cfg, s, g);
    if MembersReturned(s, g) {
      step := Join(g);
    } else {
      var i :| 0 <= i < |s.groups[g].members| && !s.tasks[s.groups[g].members[i]].pc.Returned?;
      step := MemberGoesOn(cfg, s, s.groups[g].members[i]);
    }
  }

  lemma {:induction false} MemberGoesOn(cfg: Config, s: State, t: nat) returns (step: Step)
    requires Inv(cfg, s) && Quiet(s) && t < |s.tasks| && !s.tasks[t].pc.Returned? && ContextDone(s, t)
    ensures GoesOn(cfg, s, step)
    decreases |s.groups| - s.tasks[t].group, 0
  {
    assert TaskOk(cfg, s, t);
    if s.tasks[t].pc.InGo? {
      var c := s.tasks[t].child.value;
      assert GroupOk(cfg, s, c);
      if s.groups[c].cancelled {
        step := CancelledGoesOn(cfg, s, c);
      } else {
        step := Cancel(c);
      }
    } else {
      step := AwaitCancelled(t);
    }
  }

  /** A failure travels up until it cancels a call that is still running. */
  lemma {:induction false} FailureGoesOn(cfg: Config, s: State, t: nat) returns (step: Step)
    requires Inv(cfg, s) && Quiet(s) && s.groups[0].status.Running? && HasFailed(s, t)
    ensures GoesOn(cfg, s, step)
    decreases s.tasks[t].group
  {
    assert TaskOk(cfg, s, t);
    var g := s.tasks[t].group;
    assert GroupOk(cfg, s, g) && s.groups[g].members[s.tasks[t].slot] == t;
    if s.groups[g].status.Running? {
      if s.groups[g].cancelled {
        step := CancelledGoesOn(cfg, s, g);
      } else {
        step := Cancel(g);
      }
    } else {
      OwnerFailed(cfg, s, g);
      step := FailureGoesOn(cfg, s, s.groups[g].owner.value);
    }
  }

  /** The goroutine that opened a failed group has failed. */
  lemma OwnerFailed(cfg: Config, s: State, g: nat)
    requires Inv(cfg, s) && Quiet(s) && 0 < g < |s.groups| && s.groups[g].status == Finished(false)
    ensures s.groups[g].owner.Some? && HasFailed(s, s.groups[g].owner.value) && s.tasks[s.groups[g].owner.value].group < g
  {
    assert GroupOk(cfg, s, g);
    assert TaskOk(cfg, s, s.groups[g].owner.value);
  }

  lemma QuietGoesOn(cfg: Config, nodes: seq<Key>, s: State) returns (step: Step)
    requires Covers(cfg, nodes) && Acyclic(Edges(cfg)) && Inv(cfg, s) && InScope(cfg, s) && Quiet(s) && s.groups[0].status.Running?
    ensures GoesOn(cfg, s, step)
  {
    if t: nat :| HasFailed(s, t) {
      step := FailureGoesOn(cfg, s, t);
    } else {
      forall t: nat | t < |s.tasks| && (s.tasks[t].pc.Ending? || s.tasks[t].pc.Returned?) ensures s.tasks[t].pc.out == Nil {
        assert !HasFailed(s, t);
      }
      step := QuietCanStep(cfg, nodes, s);
    }
  }

  /** Once the outermost call is over, every goroutine left behind runs under a cancelled context. */
  lemma {:induction false} LeftBehindGoesOn(cfg: Config, s: State, t: nat) returns (step: Step)
    requires Inv(cfg, s) && Quiet(s) && FailedOk(s) && s.groups[0].status.Finished? && t < |s.tasks| && !s.tasks[t].pc.Returned?
    ensures GoesOn(cfg, s, step)
    decreases s.tasks[t].group
  {
    assert TaskOk(cfg, s, t);
    var g := s.tasks[t].group;
    assert GroupOk(cfg, s, g) && s.groups[g].members[s.tasks[t].slot] == t;
    if s.groups[g].cancelled {
      step := MemberGoesOn(cfg, s, t);
    } else {
      var o := s.groups[g].owner.value;
      assert TaskOk(cfg, s, o);
      step := LeftBehindGoesOn(cfg, s, o);
    }
  }

  ghost predicate Over(s: State) {
    |s.groups| > 0 && s.groups[0].status.Finished? && forall t: nat :: t < |s.tasks| ==> s.tasks[t].pc.Returned?
  }

  /** With at least one permit and no cycle, a copy goes on by itself until it has returned and all goroutines have ended, whatever has failed. */
  lemma AlwaysGoesOn(cfg: Config, nodes: seq<Key>, s: State) returns (step: Step)
    requires Covers(cfg, nodes) && Acyclic(Edges(cfg)) && cfg.limit >= 1
    requires Inv(cfg, s) && InScope(cfg, s) && FailedOk(s) && !Over(s)
    ensures GoesOn(cfg, s, step)
  {
    if t: nat :| t < |s.tasks| && IsLocal(s.tasks[t].pc) {
      step := LocalCanStep(cfg, s, t);
    } else {
      QuietHasPermits(cfg, s);
      if t: nat :| t < |s.tasks| && s.tasks[t].pc.Restarting? {
        step := Restart(t);
      } else if g: nat :| g < |s.groups| && s.groups[g].status.Running? && |s.groups[g].members| < |s.groups[g].items| {
        step := SpawnCanStep(cfg, s, g);
      } else if s.groups[0].status.Running? {
        step := QuietGoesOn(cfg, nodes, s);
      } else {
        var t: nat :| t < |s.tasks| && !s.tasks[t].pc.Returned?;
        step := LeftBehindGoesOn(cfg, s, t);
      }
    }
  }

  /** Every run that does not go on by itself has returned, with every goroutine ended, whatever failed or was cancelled on the way. */
  lemma EveryMaximalRunReturns(cfg: Config, nodes: seq<Key>, states: seq<State>, steps: seq<Step>)
    requires Covers(cfg, nodes) && Acyclic(Edges(cfg)) && cfg.limit >= 1 && IsRun(cfg, states, steps)
    requires forall step :: !GoesOn(cfg, states[|steps|], step)
    ensures Over(states[|steps|])
  {
    var s := states[|steps|];
    RunKeepsInv(cfg, states, steps, |steps|);
    RunKeepsScope(cfg, states, steps, |steps|);
    RunKeepsFailed(cfg, states, steps, |steps|);
    if !Over(s) {
      var step := AlwaysGoesOn(cfg, nodes, s);
    }
  }
}
