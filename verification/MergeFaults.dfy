/** Who is told what when a merged update of a referrers index fails, and what a run without faults stores. */
module MergeFaults {
  import opened Descriptors
  import opened Referrers
  import opened Sequences
  import opened MergeProtocol
  import opened MergeSafety
  import opened MergeResults
  import opened MergeOutcomes
  import opened MergeLists
  import opened MergeOrders

  /** On the way to returning an error. */
  ghost predicate Failing(phase: Phase) {
    match phase
    case Committing(prep) => prep.PrepareFailed?
    case Notifying(ok, _) => !ok
    case Moving(ok) => !ok
    case Leaving(ok) => !ok
    case Returned(ok) => !ok
    case _ => false
  }

  /** Before state i a registry request failed for the batch with this status channel. */
  ghost predicate Blamed(states: seq<State>, steps: seq<Step>, i: nat, b: nat) {
    exists j :: 0 <= j < i && j < |steps| && j < |states| && IsFault(steps[j])
                && steps[j].c < |states[j].callers| && states[j].callers[steps[j].c].batch == b
  }

  // ---- A fault fails the whole batch ----

  lemma FaultFails(cfg: Config, s: State, step: Step)
    requires Enabled(cfg, s, step) && IsFault(step)
    ensures var s' := Apply(cfg, s, step);
            step.c < |s'.callers| && Failing(s'.callers[step.c].phase) && s'.callers[step.c].batch == s.callers[step.c].batch
  {
  }

  lemma OnlyWriterMoves(cfg: Config, s: State, step: Step)
    requires Enabled(cfg, s, step) && (step.Resolve? || step.Push? || step.Delete?)
    ensures step.c < |s.callers| && OneCaller(s, Apply(cfg, s, step), step.c)
  {
    hide Updated, ChangesOf;
  }

  lemma OnlyOneMoves(cfg: Config, s: State, step: Step)
    requires Enabled(cfg, s, step)
    ensures step.c < |s.callers| && OneCaller(s, Apply(cfg, s, step), step.c)
  {
    if step.Resolve? || step.Push? || step.Delete? {
      OnlyWriterMoves(cfg, s, step);
    }
  }

  lemma FailingMovesOn(cfg: Config, s: State, step: Step)
    requires Enabled(cfg, s, step) && Failing(s.callers[step.c].phase)
    ensures var s' := Apply(cfg, s, step);
            && step.c < |s'.callers| && Failing(s'.callers[step.c].phase) && s'.callers[step.c].batch == s.callers[step.c].batch
  {
    assert step.Commit? || step.Notify? || step.Move? || step.Leave?;
  }

  lemma FailingStays(cfg: Config, s: State, step: Step, c: nat)
    requires Enabled(cfg, s, step) && c < |s.callers| && Failing(s.callers[c].phase)
    ensures var s' := Apply(cfg, s, step);
            c < |s'.callers| && Failing(s'.callers[c].phase) && s'.callers[c].batch == s.callers[c].batch
  {
    OnlyOneMoves(cfg, s, step);
    if c == step.c {
      FailingMovesOn(cfg, s, step);
    }
    hide Enabled, Apply, Failing;
  }

  lemma {:induction false} FaultIsFinal(cfg: Config, states: seq<State>, steps: seq<Step>, j: nat, i: nat)
    requires IsRun(cfg, states, steps) && j < |steps| && IsFault(steps[j]) && j < i < |states|
    ensures var c := steps[j].c;
            && c < |states[j].callers| && c < |states[i].callers|
            && Failing(states[i].callers[c].phase) && states[i].callers[c].batch == states[j].callers[c].batch
  {
    assert Enabled(cfg, states[i - 1], steps[i - 1]) && Enabled(cfg, states[j], steps[j]);
    assert steps[j].c < |states[j].callers|;
    hide Enabled, Apply, Failing;
    if i == j + 1 {
      FaultFails(cfg, states[j], steps[j]);
    } else {
      FaultIsFinal(cfg, states, steps, j, i - 1);
      FailingStays(cfg, states[i - 1], steps[i - 1], steps[j].c);
    }
  }

  /** The channel of a failing batch is not closed. */
  lemma FailingIsOpen(cfg: Config, s: State, c: nat)
    requires Inv(cfg, s) && OutcomesOk(s) && c < |s.callers| && Failing(s.callers[c].phase)
    ensures s.callers[c].batch < |s.chans| && !s.chans[s.callers[c].batch].closed
  {
    assert OutcomeOk(s, c);
    if IsMain(s.callers[c].phase) {
      MainIsCurrent(cfg, s, c);
      assert c in Mains(s) && MainOk(s, Cur(s).items, Cur(s).status.value, c);
    }
  }

  lemma BlamedFails(cfg: Config, states: seq<State>, steps: seq<Step>, i: nat, d: nat)
    requires IsRun(cfg, states, steps) && i < |states| && d < |states[i].callers| && states[i].callers[d].phase.Returned?
    requires Blamed(states, steps, i, states[i].callers[d].batch)
    ensures !states[i].callers[d].phase.ok
  {
    var s := states[i];
    var j :| 0 <= j < i && IsFault(steps[j]) && steps[j].c < |states[j].callers| && states[j].callers[steps[j].c].batch == s.callers[d].batch;
    FaultIsFinal(cfg, states, steps, j, i);
    RunKeepsInv(cfg, states, steps, i);
    RunKeepsOutcomes(cfg, states, steps, i);
    FailingIsOpen(cfg, s, steps[j].c);
    assert OutcomeOk(s, d);
  }

  // ---- Nothing else fails anybody ----

  /** Who is failing, and whom an error waits for, is in a batch a request failed for. */
  ghost predicate ErrorsBlamed(states: seq<State>, steps: seq<Step>, i: nat)
    requires i < |states|
  {
    && (forall c: nat :: c < |states[i].callers| && Failing(states[i].callers[c].phase) ==> Blamed(states, steps, i, states[i].callers[c].batch))
    && (forall ch: nat :: ch < |states[i].chans| && Error in states[i].chans[ch].buffer ==> Blamed(states, steps, i, ch))
  }

  /** A caller starts to fail by a fault, or by receiving an error. */
  lemma NewFailures(cfg: Config, s: State, step: Step)
    requires Enabled(cfg, s, step) && OutcomeOk(s, step.c) && !IsFault(step) && !Failing(s.callers[step.c].phase)
    requires step.c < |Apply(cfg, s, step).callers| && Failing(Apply(cfg, s, step).callers[step.c].phase)
    ensures var s' := Apply(cfg, s, step);
            && s'.callers[step.c].batch == s.callers[step.c].batch < |s.chans|
            && Error in s.chans[s.callers[step.c].batch].buffer
  {
    hide Updated, ChangesOf;
    assert step.Receive?;
  }

  /** An error is sent by a failing main caller, to its own batch. */
  lemma NewErrors(cfg: Config, s: State, step: Step, ch: nat)
    requires Enabled(cfg, s, step) && (step.Notify? ==> OwnChannel(s, step.c))
    requires ch < |Apply(cfg, s, step).chans| && Error in Apply(cfg, s, step).chans[ch].buffer
    ensures (ch < |s.chans| && Error in s.chans[ch].buffer)
            || (step.c < |s.callers| && Failing(s.callers[step.c].phase) && s.callers[step.c].batch == ch)
  {
    if !step.Notify? && !step.Assign? && !step.Receive? && !step.Move? {
      SameChannels(cfg, s, step);
    }
  }

  lemma SameChannels(cfg: Config, s: State, step: Step)
    requires Enabled(cfg, s, step) && !step.Notify? && !step.Assign? && !step.Receive? && !step.Move?
    ensures Apply(cfg, s, step).chans == s.chans
  {
    hide Updated, ChangesOf;
  }

  /** The status channel of the merge object a main caller uses is that of its batch. */
  ghost predicate OwnChannel(s: State, c: nat) {
    c < |s.callers| && s.callers[c].m < |s.merges| && s.merges[s.callers[c].m].status == Some(s.callers[c].batch)
  }

  lemma MainOwnsChannel(cfg: Config, s: State, c: nat)
    requires Inv(cfg, s) && OutcomesOk(s) && c < |s.callers| && IsMain(s.callers[c].phase)
    ensures OwnChannel(s, c)
  {
    MainIsCurrent(cfg, s, c);
    assert OutcomeOk(s, c);
  }

  lemma BlamedLater(states: seq<State>, steps: seq<Step>, i: nat)
    ensures forall b :: Blamed(states, steps, i, b) ==> Blamed(states, steps, i + 1, b)
  {
  }

  lemma StepKeepsBlame(cfg: Config, states: seq<State>, steps: seq<Step>, i: nat)
    requires IsRun(cfg, states, steps) && i < |steps| && ErrorsBlamed(states, steps, i)
    requires Inv(cfg, states[i]) && OutcomesOk(states[i])
    ensures ErrorsBlamed(states, steps, i + 1)
  {
    var s, s', step := states[i], states[i + 1], steps[i];
    assert Enabled(cfg, s, step) && s' == Apply(cfg, s, step);
    OnlyOneMoves(cfg, s, step);
    BlamedLater(states, steps, i);
    assert OutcomeOk(s, step.c);
    if step.Notify? {
      MainOwnsChannel(cfg, s, step.c);
    }
    assert IsFault(step) ==> Blamed(states, steps, i + 1, s.callers[step.c].batch);
    hide Inv, OutcomesOk, OutcomeOk, Enabled, Apply, IsRun, Blamed, OwnChannel, Failing;
    if Failing(s'.callers[step.c].phase) {
      if IsFault(step) {
        FaultFails(cfg, s, step);
      } else if Failing(s.callers[step.c].phase) {
        FailingStays(cfg, s, step, step.c);
      } else {
        NewFailures(cfg, s, step);
      }
    }
    forall c: nat | c < |s'.callers| && Failing(s'.callers[c].phase) ensures Blamed(states, steps, i + 1, s'.callers[c].batch) {
      assert c != step.c ==> s'.callers[c] == s.callers[c];
    }
    forall ch: nat | ch < |s'.chans| && Error in s'.chans[ch].buffer ensures Blamed(states, steps, i + 1, ch) {
      NewErrors(cfg, s, step, ch);
    }
  }

  lemma {:induction false} RunKeepsBlame(cfg: Config, states: seq<State>, steps: seq<Step>, i: nat)
    requires IsRun(cfg, states, steps) && i < |states|
    ensures ErrorsBlamed(states, steps, i)
  {
    if i > 0 {
      hide Inv, OutcomesOk, ErrorsBlamed, Enabled, Apply;
      RunKeepsBlame(cfg, states, steps, i - 1);
      RunKeepsInv(cfg, states, steps, i - 1);
      RunKeepsOutcomes(cfg, states, steps, i - 1);
      StepKeepsBlame(cfg, states, steps, i - 1);
    }
  }

  /** A caller returns an error if and only if a registry request failed for its batch. */
  lemma ErrorIffFault(cfg: Config, states: seq<State>, steps: seq<Step>, i: nat, c: nat)
    requires IsRun(cfg, states, steps) && i < |states| && c < |states[i].callers| && states[i].callers[c].phase.Returned?
    ensures !states[i].callers[c].phase.ok <==> Blamed(states, steps, i, states[i].callers[c].batch)
  {
    RunKeepsBlame(cfg, states, steps, i);
    if Blamed(states, steps, i, states[i].callers[c].batch) {
      BlamedFails(cfg, states, steps, i, c);
    }
  }

  // ---- Runs without faults ----

  /** A run without faults that cannot go on has told every caller nil and stored all changes. */
  lemma MaximalRunStoresAll(cfg: Config, states: seq<State>, steps: seq<Step>)
    requires WellFormed(cfg) && IsRun(cfg, states, steps)
    requires forall j :: 0 <= j < |steps| ==> !IsFault(steps[j])
    requires forall step :: Enabled(cfg, states[|steps|], step) ==> IsFault(step)
    ensures var s := states[|steps|];
            && AllToldNil(cfg, s) && NoDuplicates(s.log) && (forall c: nat :: c in s.log <==> c < |cfg.changes|)
            && InRange(cfg, s.log) && Stored(s.tag) == ApplyKeys(Stored(cfg.tag0), ChangesOf(cfg, s.log))
    ensures Unmixed(cfg.changes) ==> StoredInSequence(cfg, states[|steps|])
  {
    var s := states[|steps|];
    MaximalRunReturnsAll(cfg, states, steps);
    RunKeepsInv(cfg, states, steps, |steps|);
    forall c: nat | c < |cfg.changes| ensures c < |s.callers| && s.callers[c].phase == Returned(true) {
      ErrorIffFault(cfg, states, steps, |steps|, c);
    }
    AllNilMeansAllApplied(cfg, states, steps);
    if Unmixed(cfg.changes) {
      UnmixedIsSequential(cfg, states, steps, |steps|);
    }
  }

  // ---- What is left in the registry ----

  /** Without SkipReferrersGC an update never leaves an empty index behind, and with it nothing is ever deleted. */
  ghost predicate TagOk(cfg: Config, s: State) {
    && (!cfg.skipGC ==> s.tag.None? || s.tag == cfg.tag0 || s.tag.value.manifests != [])
    && (cfg.skipGC && cfg.tag0.Some? ==> s.tag.Some?)
    && (forall c: nat :: c < |s.callers| && s.callers[c].phase.Pushing? ==> cfg.skipGC || s.callers[c].phase.next != [])
    && (forall c: nat :: c < |s.callers| && s.callers[c].phase.Deleting? ==> !cfg.skipGC)
  }

  ghost predicate MoverOk(cfg: Config, s: State, c: nat) {
    && (!cfg.skipGC ==> s.tag.None? || s.tag == cfg.tag0 || s.tag.value.manifests != [])
    && (cfg.skipGC && cfg.tag0.Some? ==> s.tag.Some?)
    && c < |s.callers|
    && (s.callers[c].phase.Pushing? ==> cfg.skipGC || s.callers[c].phase.next != [])
    && (s.callers[c].phase.Deleting? ==> !cfg.skipGC)
  }

  lemma WriterKeepsTag(cfg: Config, s: State, step: Step)
    requires TagOk(cfg, s) && Enabled(cfg, s, step) && (step.Resolve? || step.Push? || step.Delete?)
    ensures MoverOk(cfg, Apply(cfg, s, step), step.c)
  {
    hide Updated, ChangesOf;
  }

  lemma MoverKeepsTag(cfg: Config, s: State, step: Step)
    requires TagOk(cfg, s) && Enabled(cfg, s, step)
    ensures MoverOk(cfg, Apply(cfg, s, step), step.c)
  {
    if step.Resolve? || step.Push? || step.Delete? {
      WriterKeepsTag(cfg, s, step);
    }
  }

  lemma StepKeepsTag(cfg: Config, s: State, step: Step)
    requires TagOk(cfg, s) && Enabled(cfg, s, step)
    ensures TagOk(cfg, Apply(cfg, s, step))
  {
    hide Enabled, Apply;
    OnlyOneMoves(cfg, s, step);
    MoverKeepsTag(cfg, s, step);
  }

  /** Without SkipReferrersGC no update leaves an empty index under the tag; with it no index is deleted. */
  lemma {:induction false} NoEmptyIndexIsLeft(cfg: Config, states: seq<State>, steps: seq<Step>, i: nat)
    requires IsRun(cfg, states, steps) && i < |states|
    ensures TagOk(cfg, states[i])
  {
    if i > 0 {
      NoEmptyIndexIsLeft(cfg, states, steps, i - 1);
      assert Enabled(cfg, states[i - 1], steps[i - 1]);
      hide Enabled, Apply, TagOk;
      StepKeepsTag(cfg, states[i - 1], steps[i - 1]);
    }
  }

  /** Before state i, caller c deleted this index. */
  ghost predicate Deleted(states: seq<State>, steps: seq<Step>, i: nat, c: nat, old_: Index) {
    exists k, ok :: 0 <= k < i && k < |steps| && k < |states| && steps[k] == Delete(c, true, ok) && HasToDelete(states[k], c, old_)
  }

  ghost predicate HasToDelete(s: State, c: nat, old_: Index) {
    c < |s.callers| && s.callers[c].phase.Deleting? && s.callers[c].phase.oldIndex == old_
  }

  lemma DeletedOrFailing(cfg: Config, s: State, step: Step, c: nat, old_: Index)
    requires Enabled(cfg, s, step) && HasToDelete(s, c, old_)
    ensures var s' := Apply(cfg, s, step);
            && c < |s'.callers|
            && (HasToDelete(s', c, old_) || (exists ok :: step == Delete(c, true, ok)) || Failing(s'.callers[c].phase))
  {
    OnlyOneMoves(cfg, s, step);
    if step.c == c {
      assert step.Delete?;
    } else {
      hide Enabled, Apply;
    }
  }

  lemma PushedHasToDelete(cfg: Config, s: State, step: Step)
    requires Enabled(cfg, s, step) && step.Push? && !cfg.skipGC && s.callers[step.c].phase.prev.Some?
    ensures var s' := Apply(cfg, s, step);
            step.c < |s'.callers| && (HasToDelete(s', step.c, s.callers[step.c].phase.prev.value) || Failing(s'.callers[step.c].phase))
  {
  }

  /** From a push over an old index on, the caller has still to delete that index, has deleted it, or returns an error. */
  lemma {:induction false} PushedThenDeletes(cfg: Config, states: seq<State>, steps: seq<Step>, j: nat, i: nat)
    requires IsRun(cfg, states, steps) && j < |steps| && j < i < |states|
    requires steps[j].Push? && steps[j].c < |states[j].callers| && states[j].callers[steps[j].c].phase.Pushing?
    requires !cfg.skipGC && states[j].callers[steps[j].c].phase.prev.Some?
    ensures var c, old_ := steps[j].c, states[j].callers[steps[j].c].phase.prev.value;
            && c < |states[i].callers|
            && (HasToDelete(states[i], c, old_) || Deleted(states, steps, i, c, old_) || Failing(states[i].callers[c].phase))
  {
    var c, old_ := steps[j].c, states[j].callers[steps[j].c].phase.prev.value;
    assert Enabled(cfg, states[i - 1], steps[i - 1]);
    hide Enabled, Apply, Failing, HasToDelete;
    if i == j + 1 {
      PushedHasToDelete(cfg, states[j], steps[j]);
    } else {
      PushedThenDeletes(cfg, states, steps, j, i - 1);
      OnlyOneMoves(cfg, states[i - 1], steps[i - 1]);
      if Failing(states[i - 1].callers[c].phase) {
        FailingStays(cfg, states[i - 1], steps[i - 1], c);
      } else if HasToDelete(states[i - 1], c, old_) {
        DeletedOrFailing(cfg, states[i - 1], steps[i - 1], c, old_);
      }
    }
  }

  /** A caller that pushed a new index over an old one and returned nil has deleted the old one. */
  lemma OldIndexIsDeleted(cfg: Config, states: seq<State>, steps: seq<Step>, j: nat, i: nat)
    requires IsRun(cfg, states, steps) && j < |steps| && j < i < |states| && !cfg.skipGC
    requires steps[j].Push? && steps[j].c < |states[j].callers| && states[j].callers[steps[j].c].phase.Pushing?
    requires states[j].callers[steps[j].c].phase.prev.Some?
    requires steps[j].c < |states[i].callers| && states[i].callers[steps[j].c].phase == Returned(true)
    ensures Deleted(states, steps, i, steps[j].c, states[j].callers[steps[j].c].phase.prev.value)
  {
    PushedThenDeletes(cfg, states, steps, j, i);
  }
}
