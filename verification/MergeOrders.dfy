/** When the stored referrers list is what the changes give one after the other, over whole runs. */
module MergeOrders {
  import opened Descriptors
  import opened Referrers
  import opened Sequences
  import opened MergeProtocol
  import opened MergeSafety
  import opened MergeResults
  import opened MergeLists
  import opened BatchOrders

  /** No referrer is both added and removed. */
  ghost predicate Unmixed(cs: seq<Change>) {
    forall i, j :: 0 <= i < |cs| && 0 <= j < |cs| && cs[i].Remove? && cs[j].Add? ==> FromOCI(cs[i].referrer) != FromOCI(cs[j].referrer)
  }

  /** The stored list, entry by entry, is the initial one after the logged changes one by one. */
  ghost predicate StoredInSequence(cfg: Config, s: State) {
    InRange(cfg, s.log) && Manifests(s.tag) == ThenAll(Manifests(cfg.tag0), Singles(ChangesOf(cfg, s.log)))
  }

  // ---- No batch is empty ----

  ghost predicate NoneEmpty(batches: seq<seq<nat>>) {
    forall i :: 0 <= i < |batches| ==> batches[i] != []
  }

  /** A step logs the batch of the caller that takes it, or nothing. */
  lemma LogsOwnBatch(cfg: Config, s: State, step: Step)
    requires Enabled(cfg, s, step)
    ensures step.c < |s.callers|
    ensures var batches := Apply(cfg, s, step).batches;
            || batches == s.batches
            || (&& IsMain(s.callers[step.c].phase) && s.callers[step.c].m < |s.merges|
                && batches == s.batches + [s.merges[s.callers[step.c].m].items])
  {
    hide Updated, ChangesOf;
  }

  lemma StepKeepsNonEmpty(cfg: Config, s: State, step: Step)
    requires Inv(cfg, s) && NoneEmpty(s.batches) && Enabled(cfg, s, step)
    ensures NoneEmpty(Apply(cfg, s, step).batches)
  {
    hide Inv, Enabled, Apply;
    LogsOwnBatch(cfg, s, step);
    if Apply(cfg, s, step).batches != s.batches {
      MainIsCurrent(cfg, s, step.c);
    }
  }

  lemma {:induction false} RunKeepsNonEmpty(cfg: Config, states: seq<State>, steps: seq<Step>, i: nat)
    requires IsRun(cfg, states, steps) && i < |states|
    ensures NoneEmpty(states[i].batches)
  {
    hide Inv, Enabled, Apply;
    if i > 0 {
      RunKeepsNonEmpty(cfg, states, steps, i - 1);
      RunKeepsInv(cfg, states, steps, i - 1);
      assert Enabled(cfg, states[i - 1], steps[i - 1]);
      StepKeepsNonEmpty(cfg, states[i - 1], steps[i - 1]);
    }
  }

  // ---- Unmixed changes: batch by batch is change by change ----

  lemma {:induction false} ThenAllConcat(list: seq<Descriptor>, a: seq<seq<Change>>, b: seq<seq<Change>>)
    ensures ThenAll(list, a + b) == ThenAll(ThenAll(list, a), b)
  {
    hide Then;
    if b == [] {
      assert a + b == a;
    } else {
      ThenAllConcat(list, a, b[..|b| - 1]);
      assert (a + b)[..|a + b| - 1] == a + b[..|b| - 1];
    }
  }

  lemma UnmixedBatch(cfg: Config, items: seq<nat>)
    requires Unmixed(cfg.changes) && InRange(cfg, items)
    ensures MovesNothing(ChangesOf(cfg, items))
  {
  }

  lemma ChangesConcat(cfg: Config, a: seq<nat>, b: seq<nat>)
    requires InRange(cfg, a) && InRange(cfg, b)
    ensures InRange(cfg, a + b) && Singles(ChangesOf(cfg, a + b)) == Singles(ChangesOf(cfg, a)) + Singles(ChangesOf(cfg, b))
  {
    assert ChangesOf(cfg, a + b) == ChangesOf(cfg, a) + ChangesOf(cfg, b);
  }

  /** One more batch is as good as its changes one by one. */
  lemma BatchInSequence(cfg: Config, list: seq<Descriptor>, log: seq<nat>, items: seq<nat>)
    requires WellFormed(cfg) && Unmixed(cfg.changes) && InRange(cfg, log) && InRange(cfg, items) && items != []
    ensures InRange(cfg, log + items)
    ensures Then(ThenAll(list, Singles(ChangesOf(cfg, log))), ChangesOf(cfg, items)) == ThenAll(list, Singles(ChangesOf(cfg, log + items)))
  {
    hide ThenAll, Then, MovesNothing, AddsNoEmpty;
    var before := ThenAll(list, Singles(ChangesOf(cfg, log)));
    ChangesConcat(cfg, log, items);
    ItemsAddNoEmpty(cfg, items);
    UnmixedBatch(cfg, items);
    MovesNothingSuffices(before, ChangesOf(cfg, items));
    ThenAllConcat(list, Singles(ChangesOf(cfg, log)), Singles(ChangesOf(cfg, items)));
  }

  lemma {:induction false} BatchesInSequence(cfg: Config, batches: seq<seq<nat>>)
    requires WellFormed(cfg) && Unmixed(cfg.changes) && AllInRange(cfg, batches) && NoneEmpty(batches)
    ensures InRange(cfg, Flatten(batches))
    ensures ThenAll(Manifests(cfg.tag0), ChangesByBatch(cfg, batches)) ==
              ThenAll(Manifests(cfg.tag0), Singles(ChangesOf(cfg, Flatten(batches))))
  {
    if batches == [] {
      assert ChangesByBatch(cfg, []) == [] && Singles(ChangesOf(cfg, [])) == [];
    } else {
      hide ThenAll, Then, Unmixed, WellFormed, ChangesByBatch, ChangesOf;
      var front, last := batches[..|batches| - 1], batches[|batches| - 1];
      BatchesInSequence(cfg, front);
      BatchAppended(cfg, front, last);
      assert front + [last] == batches;
      BatchInSequence(cfg, Manifests(cfg.tag0), Flatten(front), last);
    }
  }

  /** If no referrer is both added and removed, the stored list is in every state of every run the sequential one, in order and with annotations. */
  lemma UnmixedIsSequential(cfg: Config, states: seq<State>, steps: seq<Step>, i: nat)
    requires WellFormed(cfg) && Unmixed(cfg.changes) && IsRun(cfg, states, steps) && i < |states|
    ensures StoredInSequence(cfg, states[i])
  {
    StoredListIsFold(cfg, states, steps, i);
    RunKeepsNonEmpty(cfg, states, steps, i);
    BatchesInSequence(cfg, states[i].batches);
  }

  /** If all callers were told nil and no referrer is both added and removed, the stored list is that of all changes, one after the other. */
  lemma AllNilMeansAllInSequence(cfg: Config, states: seq<State>, steps: seq<Step>)
    requires WellFormed(cfg) && Unmixed(cfg.changes) && IsRun(cfg, states, steps) && AllToldNil(cfg, states[|steps|])
    ensures var s := states[|steps|];
            && NoDuplicates(s.log) && (forall c: nat :: c in s.log <==> c < |cfg.changes|)
            && StoredInSequence(cfg, s)
  {
    AllNilMeansAllApplied(cfg, states, steps);
    UnmixedIsSequential(cfg, states, steps, |steps|);
  }

  // ---- Mixed changes: a run in which a batch is suppressed although it moves a referrer ----

  /** Callers c and d share the only merge object, and nothing has been written. */
  ghost predicate Together(cfg: Config, s: State, c: nat, d: nat, first: Phase, second: Phase, merge: Merge, chans: seq<Channel>) {
    && c < |s.callers| && d < |s.callers| && c != d
    && s.callers[c].phase == first && s.callers[c].m == 0 && s.callers[d].phase == second && s.callers[d].m == 0
    && s.merges == [merge] && s.chans == chans && s.pool.Some? && s.tag == cfg.tag0 && s.log == []
  }

  lemma Extended(cfg: Config, states: seq<State>, steps: seq<Step>, step: Step) returns (states': seq<State>, steps': seq<Step>)
    requires |states| == |steps| + 1 && IsRun(cfg, states, steps) && Enabled(cfg, states[|steps|], step)
    ensures |states'| == |steps'| + 1 && IsRun(cfg, states', steps') && states'[|steps'|] == Apply(cfg, states[|steps|], step)
  {
    hide Enabled, Apply;
    states', steps' := states + [Apply(cfg, states[|steps|], step)], steps + [step];
  }

  lemma BothGet(cfg: Config, c: nat, d: nat) returns (states: seq<State>, steps: seq<Step>)
    requires c < |cfg.changes| && d < |cfg.changes| && c != d
    ensures |states| == |steps| + 1 && IsRun(cfg, states, steps)
    ensures Together(cfg, states[|steps|], c, d, Got, Got, Merge(false, [], None, [], None), [])
  {
    states, steps := Extended(cfg, [Init(cfg)], [], Get(c));
    states, steps := Extended(cfg, states, steps, Get(d));
  }

  lemma FirstAssigned(cfg: Config, s: State, c: nat, d: nat)
    requires Together(cfg, s, c, d, Got, Got, Merge(false, [], None, [], None), [])
    ensures Enabled(cfg, s, Assign(c))
    ensures Together(cfg, Apply(cfg, s, Assign(c)), c, d, Waiting(0), Got, Merge(false, [c], Some(0), [], None), [Channel([Main], false)])
  {
    assert [] + [c] == [c];
  }

  lemma SecondAssigned(cfg: Config, s: State, c: nat, d: nat)
    requires Together(cfg, s, c, d, Waiting(0), Got, Merge(false, [c], Some(0), [], None), [Channel([Main], false)])
    ensures Enabled(cfg, s, Assign(d))
    ensures Together(cfg, Apply(cfg, s, Assign(d)), c, d, Waiting(0), Waiting(0), Merge(false, [c, d], Some(0), [], None), [Channel([Main], false)])
  {
    assert [c] + [d] == [c, d];
  }

  lemma FirstReceives(cfg: Config, s: State, c: nat, d: nat)
    requires Together(cfg, s, c, d, Waiting(0), Waiting(0), Merge(false, [c, d], Some(0), [], None), [Channel([Main], false)])
    ensures Enabled(cfg, s, Receive(c))
    ensures Together(cfg, Apply(cfg, s, Receive(c)), c, d, Preparing, Waiting(0), Merge(false, [c, d], Some(0), [], None), [Channel([], false)])
  {
    assert [Main][1..] == [];
  }

  lemma FirstPrepares(cfg: Config, s: State, c: nat, d: nat)
    requires Together(cfg, s, c, d, Preparing, Waiting(0), Merge(false, [c, d], Some(0), [], None), [Channel([], false)])
    ensures Enabled(cfg, s, Prepare(c, true))
    ensures Together(cfg, Apply(cfg, s, Prepare(c, true)), c, d, Committing(Old(cfg.tag0)), Waiting(0), Merge(false, [c, d], Some(0), [], None), [Channel([], false)])
  {
  }

  lemma FirstCommits(cfg: Config, s: State, c: nat, d: nat)
    requires Together(cfg, s, c, d, Committing(Old(cfg.tag0)), Waiting(0), Merge(false, [c, d], Some(0), [], None), [Channel([], false)])
    ensures Enabled(cfg, s, Commit(c))
    ensures Together(cfg, Apply(cfg, s, Commit(c)), c, d, Resolving(cfg.tag0), Waiting(0), Merge(true, [c, d], Some(0), [], None), [Channel([], false)])
  {
  }

  lemma FirstResolves(cfg: Config, s: State, c: nat, d: nat)
    requires Together(cfg, s, c, d, Resolving(cfg.tag0), Waiting(0), Merge(true, [c, d], Some(0), [], None), [Channel([], false)])
    requires c < |cfg.changes| && d < |cfg.changes|
    requires Updated(Manifests(cfg.tag0), [cfg.changes[c], cfg.changes[d]]).None?
    ensures Enabled(cfg, s, Resolve(c))
    ensures Apply(cfg, s, Resolve(c)).tag == cfg.tag0 && Apply(cfg, s, Resolve(c)).log == [c, d]
  {
    assert ChangesOf(cfg, [c, d]) == [cfg.changes[c], cfg.changes[d]];
    hide Updated;
  }

  /** One caller resolves a batch of two, and its update is suppressed. */
  lemma SuppressedRun(cfg: Config, c: nat, d: nat) returns (states: seq<State>, steps: seq<Step>)
    requires c < |cfg.changes| && d < |cfg.changes| && c != d
    requires Updated(Manifests(cfg.tag0), [cfg.changes[c], cfg.changes[d]]).None?
    ensures |states| == |steps| + 1 && IsRun(cfg, states, steps)
    ensures states[|steps|].tag == cfg.tag0 && states[|steps|].log == [c, d]
  {
    hide IsRun, Enabled, Apply, Together, Updated;
    states, steps := BothGet(cfg, c, d);
    FirstAssigned(cfg, states[|steps|], c, d);
    states, steps := Extended(cfg, states, steps, Assign(c));
    SecondAssigned(cfg, states[|steps|], c, d);
    states, steps := Extended(cfg, states, steps, Assign(d));
    FirstReceives(cfg, states[|steps|], c, d);
    states, steps := Extended(cfg, states, steps, Receive(c));
    FirstPrepares(cfg, states[|steps|], c, d);
    states, steps := Extended(cfg, states, steps, Prepare(c, true));
    FirstCommits(cfg, states[|steps|], c, d);
    states, steps := Extended(cfg, states, steps, Commit(c));
    FirstResolves(cfg, states[|steps|], c, d);
    states, steps := Extended(cfg, states, steps, Resolve(c));
  }

  /** A removal and an addition of one referrer, in one batch, leave it where it is; one after the other they move or remove it. */
  lemma MixedRun(changes: seq<Change>, skipGC: bool, c: nat, d: nat) returns (cfg: Config, states: seq<State>, steps: seq<Step>)
    requires c < |changes| && d < |changes| && changes[c].Remove? && changes[d].Add?
    requires FromOCI(changes[c].referrer) == FromOCI(changes[d].referrer) && !IsEmpty(changes[d].referrer)
    ensures cfg.changes == changes && cfg.skipGC == skipGC && IsRun(cfg, states, steps) && !StoredInSequence(cfg, states[|steps|])
  {
    var k := FromOCI(changes[d].referrer);
    var list := MovedList(k, Key("", "", Above(changes)), {k});
    var cs := [changes[c], changes[d]];
    cfg := Config(changes, skipGC, Some(Index(list, "")));
    assert ApplyKeys(KeySet(list), cs) == KeySet(list) by {
      assert cs[..1] == [cs[0]];
      OneChange(KeySet(list), list, cs[0]);
    }
    states, steps := SuppressedRun(cfg, c, d);
    assert ChangesOf(cfg, [c, d]) == cs;
    assert Moves(cs, 0, 1);
    SecondComesFirst(list, cs, 0);
    InSequenceIff(list, cs);
  }

  /** The stored list is the sequential one in every run from every index, if and only if no referrer is both added and removed. */
  lemma SequentialIff(changes: seq<Change>, skipGC: bool)
    requires forall c :: 0 <= c < |changes| ==> !IsEmpty(changes[c].referrer)
    ensures (forall tag0, states, steps, i: nat :: IsRun(Config(changes, skipGC, tag0), states, steps) && i < |states| ==>
               StoredInSequence(Config(changes, skipGC, tag0), states[i])) <==> Unmixed(changes)
  {
    if Unmixed(changes) {
      forall tag0, states, steps, i: nat | IsRun(Config(changes, skipGC, tag0), states, steps) && i < |states|
        ensures StoredInSequence(Config(changes, skipGC, tag0), states[i])
      {
        UnmixedIsSequential(Config(changes, skipGC, tag0), states, steps, i);
      }
    } else {
      var c, d :| 0 <= c < |changes| && 0 <= d < |changes| && changes[c].Remove? && changes[d].Add?
                  && FromOCI(changes[c].referrer) == FromOCI(changes[d].referrer);
      var cfg, states, steps := MixedRun(changes, skipGC, c, d);
      assert cfg == Config(changes, skipGC, cfg.tag0);
    }
  }
}
