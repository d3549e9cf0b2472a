/** Batches: who is in one, who speaks for it, and what resolve is given. */
module MergeBatches {
  import opened Descriptors
  import opened MergeProtocol
  import opened MergeSafety

  predicate Assigned(phase: Phase) {
    !phase.Idle? && !phase.Got?
  }

  /** The caller was assigned to the batch with this status channel. */
  ghost predicate InBatchOf(s: State, d: nat, ch: nat) {
    d < |s.callers| && Assigned(s.callers[d].phase) && s.callers[d].batch == ch
  }

  /** The items and the pending items are exactly the callers assigned to the two open batches. */
  ghost predicate BatchesOk(s: State) {
    && (forall d: nat :: d < |s.callers| && Assigned(s.callers[d].phase) ==> s.callers[d].batch < |s.chans|)
    && (Current(s) ==> forall d: nat ::
          && (d in Cur(s).items <==> Cur(s).status.Some? && InBatchOf(s, d, Cur(s).status.value))
          && (d in Cur(s).pending <==> Cur(s).pendingStatus.Some? && InBatchOf(s, d, Cur(s).pendingStatus.value)))
  }

  lemma GetBatches(cfg: Config, s: State, c: nat)
    requires Inv(cfg, s) && BatchesOk(s) && Enabled(cfg, s, Get(c))
    ensures BatchesOk(Apply(cfg, s, Get(c)))
  {
  }

  lemma AssignBatches(cfg: Config, s: State, c: nat)
    requires Inv(cfg, s) && BatchesOk(s) && Enabled(cfg, s, Assign(c))
    ensures BatchesOk(Apply(cfg, s, Assign(c)))
  {
    assert c in Active(s);
    hide AllRetiredOk, MainOk, Waiters;
    var s' := Apply(cfg, s, Assign(c));
    forall d: nat
      ensures d in Cur(s').items <==> Cur(s').status.Some? && InBatchOf(s', d, Cur(s').status.value)
      ensures d in Cur(s').pending <==> Cur(s').pendingStatus.Some? && InBatchOf(s', d, Cur(s').pendingStatus.value)
    {
      assert d in Cur(s).items <==> Cur(s).status.Some? && InBatchOf(s, d, Cur(s).status.value);
      assert d in Cur(s).pending <==> Cur(s).pendingStatus.Some? && InBatchOf(s, d, Cur(s).pendingStatus.value);
    }
  }

  /** A step that keeps who is assigned where, and the two open batches. */
  lemma SameBatches(s: State, s': State, c: nat)
    requires BatchesOk(s) && OneCaller(s, s', c) && s'.callers[c].batch == s.callers[c].batch && |s.chans| <= |s'.chans|
    requires Assigned(s.callers[c].phase) && Assigned(s'.callers[c].phase)
    requires Current(s') ==> Current(s) && Cur(s').items == Cur(s).items && Cur(s').status == Cur(s).status
                             && Cur(s').pending == Cur(s).pending && Cur(s').pendingStatus == Cur(s).pendingStatus
    ensures BatchesOk(s')
  {
    forall d: nat, ch: nat ensures InBatchOf(s', d, ch) <==> InBatchOf(s, d, ch) {
    }
  }

  lemma MoveBatches(cfg: Config, s: State, c: nat)
    requires Inv(cfg, s) && BatchesOk(s) && Enabled(cfg, s, Move(c))
    ensures BatchesOk(Apply(cfg, s, Move(c)))
  {
    MainIsCurrent(cfg, s, c);
    hide AllRetiredOk, StatusOk, PoolOk, Waiters;
    var s' := Apply(cfg, s, Move(c));
    forall d: nat, ch: nat ensures InBatchOf(s', d, ch) <==> InBatchOf(s, d, ch) {
    }
  }

  lemma MainBatches(cfg: Config, s: State, step: Step)
    requires Inv(cfg, s) && BatchesOk(s) && Enabled(cfg, s, step)
    requires step.Prepare? || step.Commit? || step.Resolve? || step.Push? || step.Delete? || step.Notify?
    ensures BatchesOk(Apply(cfg, s, step))
  {
    hide PoolOk, ChannelsOk, Updated, BatchesOk, ChangesOf;
    MainIsCurrent(cfg, s, step.c);
    SameBatches(s, Apply(cfg, s, step), step.c);
  }

  lemma OtherBatches(cfg: Config, s: State, step: Step)
    requires Inv(cfg, s) && BatchesOk(s) && Enabled(cfg, s, step) && (step.Receive? || step.Leave?)
    ensures BatchesOk(Apply(cfg, s, step))
  {
    hide PoolOk, ChannelsOk, BatchesOk;
    SameBatches(s, Apply(cfg, s, step), step.c);
  }

  lemma StepKeepsBatches(cfg: Config, s: State, step: Step)
    requires Inv(cfg, s) && BatchesOk(s) && Enabled(cfg, s, step)
    ensures BatchesOk(Apply(cfg, s, step))
  {
    hide Inv, BatchesOk, Enabled, Apply;
    match step
    case Get(c) => GetBatches(cfg, s, c);
    case Assign(c) => AssignBatches(cfg, s, c);
    case Move(c) => MoveBatches(cfg, s, c);
    case Receive(_) => OtherBatches(cfg, s, step);
    case Leave(_) => OtherBatches(cfg, s, step);
    case _ => MainBatches(cfg, s, step);
  }

  lemma {:induction false} RunKeepsBatches(cfg: Config, states: seq<State>, steps: seq<Step>, i: nat)
    requires IsRun(cfg, states, steps) && i < |states|
    ensures BatchesOk(states[i])
  {
    if i > 0 {
      RunKeepsBatches(cfg, states, steps, i - 1);
      RunKeepsInv(cfg, states, steps, i - 1);
      assert Enabled(cfg, states[i - 1], steps[i - 1]);
      StepKeepsBatches(cfg, states[i - 1], steps[i - 1]);
    }
  }

  /** While a caller works for its batch, the items are exactly the callers assigned to that batch, so resolve is given all of them and nobody else. */
  lemma ResolveSeesTheBatch(cfg: Config, states: seq<State>, steps: seq<Step>, i: nat, c: nat)
    requires IsRun(cfg, states, steps) && i < |states| && c < |states[i].callers| && IsMain(states[i].callers[c].phase)
    ensures Current(states[i]) && states[i].callers[c].m == states[i].pool.value.m
    ensures Cur(states[i]).status == Some(states[i].callers[c].batch)
    ensures forall d: nat :: d in Cur(states[i]).items <==> InBatchOf(states[i], d, states[i].callers[c].batch)
  {
    RunKeepsInv(cfg, states, steps, i);
    RunKeepsBatches(cfg, states, steps, i);
    MainIsCurrent(cfg, states[i], c);
  }

  /** c speaks for the batch: it is at work for it, or it was, and the batch is over. */
  ghost predicate SpeaksFor(s: State, c: nat, ch: nat) {
    && c < |s.callers| && s.callers[c].batch == ch && ch < |s.chans|
    && var phase := s.callers[c].phase;
       || (IsMain(phase) && Current(s) && Cur(s).status == Some(ch))
       || ((phase.Leaving? || phase.Returned?) && !InBatch(s, ch))
  }

  lemma WorkerWorks(cfg: Config, s: State, step: Step, ch: nat)
    requires Inv(cfg, s) && Enabled(cfg, s, step) && SpeaksFor(s, step.c, ch) && IsMain(s.callers[step.c].phase) && !step.Move?
    ensures SpeaksFor(Apply(cfg, s, step), step.c, ch)
  {
    hide ChannelsOk, Updated, PoolOk, ChangesOf;
    MainIsCurrent(cfg, s, step.c);
  }

  lemma WorkerMoves(cfg: Config, s: State, c: nat, ch: nat)
    requires Inv(cfg, s) && Enabled(cfg, s, Move(c)) && SpeaksFor(s, c, ch)
    ensures SpeaksFor(Apply(cfg, s, Move(c)), c, ch)
  {
    MainIsCurrent(cfg, s, c);
    hide AllRetiredOk, Waiters, StatusOk, PoolOk;
  }

  lemma WorkerWaits(cfg: Config, s: State, step: Step, c: nat, ch: nat)
    requires Inv(cfg, s) && Enabled(cfg, s, step) && SpeaksFor(s, c, ch) && IsMain(s.callers[c].phase) && step.c != c
    requires step.Get? || step.Assign? || step.Receive? || step.Leave?
    ensures SpeaksFor(Apply(cfg, s, step), c, ch)
  {
    assert c in Active(s) && (step.c in Active(s) || step.Get?);
    hide ChannelsOk;
    if step.Leave? {
      OthersActive(s, c, step.c);
    }
  }

  lemma WorkerSpeaksOn(cfg: Config, s: State, step: Step, c: nat, ch: nat)
    requires Inv(cfg, s) && Enabled(cfg, s, step) && SpeaksFor(s, c, ch) && IsMain(s.callers[c].phase)
    ensures SpeaksFor(Apply(cfg, s, step), c, ch)
  {
    if step.Move? && step.c == c {
      WorkerMoves(cfg, s, c, ch);
    } else if step.c == c {
      WorkerWorks(cfg, s, step, ch);
    } else {
      OnlyMain(s, c, step.c);
      hide Inv, SpeaksFor, Apply;
      WorkerWaits(cfg, s, step, c, ch);
    }
  }

  lemma OnlyMain(s: State, c: nat, d: nat)
    requires ChannelsOk(s) && Current(s) && c < |s.callers| && d < |s.callers| && IsMain(s.callers[c].phase) && c != d
    ensures !IsMain(s.callers[d].phase)
  {
    assert c in Mains(s) && (IsMain(s.callers[d].phase) ==> d in Mains(s));
  }

  /** With two callers active the pool item stays. */
  lemma OthersActive(s: State, c: nat, d: nat)
    requires c in Active(s) && d in Active(s) && c != d
    ensures |Active(s)| > 1
  {
    assert {c, d} <= Active(s);
    var rest := Active(s) - {c};
    assert d in rest && |rest| == |Active(s)| - 1;
  }

  /** A batch that is over does not come back. */
  lemma OverStays(cfg: Config, s: State, step: Step, ch: nat)
    requires Inv(cfg, s) && Enabled(cfg, s, step) && ch < |s.chans| && !InBatch(s, ch) && (step.Get? || step.Assign? || step.Receive? || step.Leave?)
    ensures ch < |Apply(cfg, s, step).chans| && !InBatch(Apply(cfg, s, step), ch)
  {
    assert step.c in Active(s) || step.Get?;
    hide ChannelsOk;
  }

  lemma OverStaysAtWork(cfg: Config, s: State, step: Step, ch: nat)
    requires Inv(cfg, s) && Enabled(cfg, s, step) && ch < |s.chans| && !InBatch(s, ch) && IsMain(s.callers[step.c].phase)
    ensures ch < |Apply(cfg, s, step).chans| && !InBatch(Apply(cfg, s, step), ch)
  {
    MainIsCurrent(cfg, s, step.c);
    hide ChannelsOk, PoolOk, Updated, ChangesOf;
  }

  lemma VeteranRests(cfg: Config, s: State, step: Step, c: nat)
    requires Enabled(cfg, s, step) && c < |s.callers| && (s.callers[c].phase.Leaving? || s.callers[c].phase.Returned?)
    ensures var s' := Apply(cfg, s, step);
            && c < |s'.callers| && s'.callers[c].batch == s.callers[c].batch
            && (s'.callers[c].phase.Leaving? || s'.callers[c].phase.Returned?)
  {
    hide Updated, ChangesOf;
    assert step.c != c || step.Leave?;
  }

  lemma VeteranSpeaksOn(cfg: Config, s: State, step: Step, c: nat, ch: nat)
    requires Inv(cfg, s) && Enabled(cfg, s, step) && SpeaksFor(s, c, ch) && !IsMain(s.callers[c].phase)
    ensures SpeaksFor(Apply(cfg, s, step), c, ch)
  {
    assert IsMain(s.callers[step.c].phase) || step.Get? || step.Assign? || step.Receive? || step.Leave?;
    hide Inv, Enabled, Apply, InBatch;
    VeteranRests(cfg, s, step, c);
    if IsMain(s.callers[step.c].phase) {
      OverStaysAtWork(cfg, s, step, ch);
    } else {
      OverStays(cfg, s, step, ch);
    }
  }

  lemma SpeaksStep(cfg: Config, s: State, step: Step, c: nat, ch: nat)
    requires Inv(cfg, s) && Enabled(cfg, s, step) && SpeaksFor(s, c, ch)
    ensures SpeaksFor(Apply(cfg, s, step), c, ch)
  {
    hide Inv, Enabled, Apply;
    if IsMain(s.callers[c].phase) {
      WorkerSpeaksOn(cfg, s, step, c, ch);
    } else {
      VeteranSpeaksOn(cfg, s, step, c, ch);
    }
  }

  lemma {:induction false} SpeaksOn(cfg: Config, states: seq<State>, steps: seq<Step>, i: nat, j: nat, c: nat, ch: nat)
    requires IsRun(cfg, states, steps) && i <= j < |states| && SpeaksFor(states[i], c, ch)
    ensures SpeaksFor(states[j], c, ch)
    decreases j
  {
    hide Inv, Enabled, Apply, SpeaksFor;
    if i < j {
      SpeaksOn(cfg, states, steps, i, j - 1, c, ch);
      RunKeepsInv(cfg, states, steps, j - 1);
      assert Enabled(cfg, states[j - 1], steps[j - 1]);
      SpeaksStep(cfg, states[j - 1], steps[j - 1], c, ch);
    }
  }

  /** Over a whole run, a batch has only one main caller. */
  lemma OneMainPerBatch(cfg: Config, states: seq<State>, steps: seq<Step>, i: nat, j: nat, c: nat, d: nat)
    requires IsRun(cfg, states, steps) && i <= j < |states|
    requires c < |states[i].callers| && IsMain(states[i].callers[c].phase)
    requires d < |states[j].callers| && IsMain(states[j].callers[d].phase)
    requires states[i].callers[c].batch == states[j].callers[d].batch
    ensures c == d
  {
    var ch := states[i].callers[c].batch;
    ResolveSeesTheBatch(cfg, states, steps, i, c);
    RunKeepsBatches(cfg, states, steps, i);
    assert SpeaksFor(states[i], c, ch);
    SpeaksOn(cfg, states, steps, i, j, c, ch);
    ResolveSeesTheBatch(cfg, states, steps, j, d);
    RunKeepsInv(cfg, states, steps, j);
    assert c in Mains(states[j]) && d in Mains(states[j]);
  }
}
