/** All callers of one batch are told the same outcome. */
module MergeOutcomes {
  import opened Descriptors
  import opened MergeProtocol
  import opened MergeSafety

  /** The main caller has begun to tell the outcome, and will not close the channel any more. */
  ghost predicate Told(phase: Phase) {
    phase.Moving? || (phase.Notifying? && !phase.ok)
  }

  /** If the batch of a caller that left is still the current one, its main caller is already telling the outcome. */
  ghost predicate BatchTold(s: State, ch: nat) {
    Current(s) ==>
      && Cur(s).pendingStatus != Some(ch)
      && (Cur(s).status == Some(ch) ==> Mains(s) != {} && forall d :: d in Mains(s) ==> Told(s.callers[d].phase))
  }

  /** The outcome of a caller that left is what became of the channel of its batch, for good. */
  ghost predicate OutcomeOk(s: State, c: nat)
    requires c < |s.callers|
  {
    var caller := s.callers[c];
    && (caller.phase.Waiting? ==> caller.batch == caller.phase.ch)
    && (IsMain(caller.phase) && Current(s) ==> Cur(s).status == Some(caller.batch))
    && (caller.phase.Leaving? || caller.phase.Returned? ==>
          caller.batch < |s.chans| && s.chans[caller.batch].closed == caller.phase.ok && BatchTold(s, caller.batch))
  }

  ghost predicate OutcomesOk(s: State) {
    forall c: nat :: c < |s.callers| ==> OutcomeOk(s, c)
  }

  /** Everybody but the moving caller, when the channels of the batches stay and none is closed. */
  lemma OutcomesStay(s: State, s': State, c: nat)
    requires OutcomesOk(s) && OneCaller(s, s', c) && Current(s) && Current(s') && |s.chans| <= |s'.chans|
    requires Cur(s').status == Cur(s).status || (Cur(s').status == Some(|s.chans|) && Mains(s) == {})
    requires Cur(s').pendingStatus == Cur(s).pendingStatus || Cur(s').pendingStatus == Some(|s.chans|)
    requires forall ch: nat :: ch < |s.chans| ==> s'.chans[ch].closed == s.chans[ch].closed
    requires c in Mains(s) ==> c in Mains(s') && (Told(s.callers[c].phase) ==> Told(s'.callers[c].phase))
    requires c in Mains(s') && c !in Mains(s) ==> Mains(s) == {}
    requires OutcomeOk(s', c)
    ensures OutcomesOk(s')
  {
    OneCallerMoves(s, s', c);
    forall d: nat | d < |s'.callers| && d != c ensures OutcomeOk(s', d) {
      assert OutcomeOk(s, d);
      assert IsMain(s.callers[d].phase) ==> d in Mains(s);
      assert forall e :: e in Mains(s') && e != c ==> e in Mains(s);
    }
  }

  lemma GetOutcomes(cfg: Config, s: State, c: nat)
    requires Inv(cfg, s) && OutcomesOk(s) && Enabled(cfg, s, Get(c))
    ensures OutcomesOk(Apply(cfg, s, Get(c)))
  {
    var s' := Apply(cfg, s, Get(c));
    if s.pool.Some? {
      OutcomesStay(s, s', c);
    } else {
      NothingLeft(s);
      forall d: nat | d < |s'.callers| ensures OutcomeOk(s', d) {
        assert OutcomeOk(s, d);
        assert IsMain(s.callers[d].phase) ==> d in Mains(s);
      }
    }
  }

  lemma AssignOutcomes(cfg: Config, s: State, c: nat)
    requires Inv(cfg, s) && OutcomesOk(s) && Enabled(cfg, s, Assign(c))
    ensures OutcomesOk(Apply(cfg, s, Assign(c)))
  {
    assert c in Active(s);
    OutcomesStay(s, Apply(cfg, s, Assign(c)), c);
  }

  /** What a receiver on a status channel learns. */
  lemma Received(cfg: Config, s: State, c: nat)
    requires Inv(cfg, s) && Enabled(cfg, s, Receive(c)) && Current(s)
    ensures var ch := s.callers[c].phase.ch;
            var phase := Apply(cfg, s, Receive(c)).callers[c].phase;
            && (phase.Preparing? ==> Mains(s) == {} && Cur(s).status == Some(ch))
            && (phase.Leaving? ==> s.chans[ch].closed == phase.ok && BatchTold(s, ch))
  {
    var ch := s.callers[c].phase.ch;
    assert c in Waiters(s, ch);
    assert !InBatch(s, ch) ==> RetiredOk(s, ch);
    if Cur(s).status == Some(ch) && Mains(s) != {} {
      var d :| d in Mains(s);
      assert MainOk(s, Cur(s).items, ch, d);
    }
  }

  lemma ReceiveEffect(cfg: Config, s: State, c: nat)
    requires Enabled(cfg, s, Receive(c))
    ensures var s' := Apply(cfg, s, Receive(c));
            && OneCaller(s, s', c) && s'.pool == s.pool && s'.merges == s.merges && |s'.chans| == |s.chans|
            && (forall ch: nat :: ch < |s.chans| ==> s'.chans[ch].closed == s.chans[ch].closed)
            && s.callers[c].phase.Waiting? && s'.callers[c].batch == s.callers[c].batch
            && (s'.callers[c].phase.Preparing? || s'.callers[c].phase.Leaving?)
  {
  }

  lemma ReceiveOutcomes(cfg: Config, s: State, c: nat)
    requires Inv(cfg, s) && OutcomesOk(s) && Enabled(cfg, s, Receive(c))
    ensures OutcomesOk(Apply(cfg, s, Receive(c)))
  {
    var s' := Apply(cfg, s, Receive(c));
    assert c in Active(s) && Current(s) && OutcomeOk(s, c);
    Received(cfg, s, c);
    ReceiveEffect(cfg, s, c);
    hide Inv, Enabled, Apply, StatusOk, PendingOk;
    OneCallerMoves(s, s', c);
    OutcomesStay(s, s', c);
  }

  /** The main caller works on without closing the channel. */
  lemma MainOutcomes(cfg: Config, s: State, step: Step)
    requires Inv(cfg, s) && OutcomesOk(s) && Enabled(cfg, s, step)
    requires IsMain(s.callers[step.c].phase) && !step.Move? && !(step.Notify? && s.callers[step.c].phase.ok)
    ensures OutcomesOk(Apply(cfg, s, step))
  {
    hide PoolOk, StatusOk, PendingOk, AllRetiredOk, Updated, ChangesOf;
    var c := step.c;
    var s' := Apply(cfg, s, step);
    MainIsCurrent(cfg, s, c);
    assert c in Mains(s) && OutcomeOk(s, c);
    OutcomesStay(s, s', c);
  }

  lemma CloseOutcomes(cfg: Config, s: State, c: nat)
    requires Inv(cfg, s) && OutcomesOk(s) && Enabled(cfg, s, Notify(c)) && s.callers[c].phase.ok
    ensures OutcomesOk(Apply(cfg, s, Notify(c)))
  {
    var s' := Apply(cfg, s, Notify(c));
    MainIsCurrent(cfg, s, c);
    OneCallerMoves(s, s', c);
    assert c in Mains(s);
    forall d: nat | d < |s'.callers| ensures OutcomeOk(s', d) {
      assert OutcomeOk(s, d);
    }
  }

  lemma MoveOutcomes(cfg: Config, s: State, c: nat)
    requires Inv(cfg, s) && OutcomesOk(s) && Enabled(cfg, s, Move(c))
    ensures OutcomesOk(Apply(cfg, s, Move(c)))
  {
    var s' := Apply(cfg, s, Move(c));
    MainIsCurrent(cfg, s, c);
    MoveRetires(cfg, s, c);
    assert c in Mains(s) && MainOk(s, Cur(s).items, Cur(s).status.value, c);
    forall d: nat | d < |s'.callers| ensures OutcomeOk(s', d) {
      assert OutcomeOk(s, d);
      assert IsMain(s'.callers[d].phase) ==> d in Mains(s');
    }
  }

  lemma LeaveOutcomes(cfg: Config, s: State, c: nat)
    requires Inv(cfg, s) && OutcomesOk(s) && Enabled(cfg, s, Leave(c))
    ensures OutcomesOk(Apply(cfg, s, Leave(c)))
  {
    var s' := Apply(cfg, s, Leave(c));
    OneCallerMoves(s, s', c);
    forall d: nat | d < |s'.callers| ensures OutcomeOk(s', d) {
      assert OutcomeOk(s, d);
    }
  }

  lemma StepKeepsOutcomes(cfg: Config, s: State, step: Step)
    requires Inv(cfg, s) && OutcomesOk(s) && Enabled(cfg, s, step)
    ensures OutcomesOk(Apply(cfg, s, step))
  {
    var c := step.c;
    if step.Get? {
      GetOutcomes(cfg, s, c);
    } else if step.Assign? {
      AssignOutcomes(cfg, s, c);
    } else if step.Receive? {
      ReceiveOutcomes(cfg, s, c);
    } else if step.Move? {
      MoveOutcomes(cfg, s, c);
    } else if step.Leave? {
      LeaveOutcomes(cfg, s, c);
    } else if step.Notify? && s.callers[c].phase.ok {
      CloseOutcomes(cfg, s, c);
    } else {
      MainOutcomes(cfg, s, step);
    }
  }

  lemma {:induction false} RunKeepsOutcomes(cfg: Config, states: seq<State>, steps: seq<Step>, i: nat)
    requires IsRun(cfg, states, steps) && i < |states|
    ensures OutcomesOk(states[i])
  {
    if i > 0 {
      RunKeepsOutcomes(cfg, states, steps, i - 1);
      RunKeepsInv(cfg, states, steps, i - 1);
      assert Enabled(cfg, states[i - 1], steps[i - 1]);
      StepKeepsOutcomes(cfg, states[i - 1], steps[i - 1]);
    }
  }

  /** Two callers assigned to the same batch return the same outcome, in every run. */
  lemma OneOutcomePerBatch(cfg: Config, states: seq<State>, steps: seq<Step>, i: nat, c: nat, d: nat)
    requires IsRun(cfg, states, steps) && i < |states|
    requires c < |states[i].callers| && d < |states[i].callers|
    requires states[i].callers[c].phase.Returned? && states[i].callers[d].phase.Returned?
    requires states[i].callers[c].batch == states[i].callers[d].batch
    ensures states[i].callers[c].phase.ok == states[i].callers[d].phase.ok
  {
    RunKeepsOutcomes(cfg, states, steps, i);
    assert OutcomeOk(states[i], c) && OutcomeOk(states[i], d);
  }
}
