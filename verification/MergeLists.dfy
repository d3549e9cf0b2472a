/** The stored referrers list, entry by entry: one update for each batch, and not one for each change. */
module MergeLists {
  import opened Descriptors
  import opened Referrers
  import opened MergeProtocol
  import opened MergeSafety
  import opened MergeResults

  /** The list after one update, whether it is written or suppressed. */
  ghost function Then(list: seq<Descriptor>, changes: seq<Change>): seq<Descriptor> {
    match Updated(list, changes) case Some(next) => next case None => list
  }

  ghost function ThenAll(list: seq<Descriptor>, batches: seq<seq<Change>>): seq<Descriptor> {
    if batches == [] then list else Then(ThenAll(list, batches[..|batches| - 1]), batches[|batches| - 1])
  }

  ghost predicate AllInRange(cfg: Config, batches: seq<seq<nat>>) {
    forall i :: 0 <= i < |batches| ==> InRange(cfg, batches[i])
  }

  ghost function ChangesByBatch(cfg: Config, batches: seq<seq<nat>>): seq<seq<Change>>
    requires AllInRange(cfg, batches)
  {
    seq(|batches|, i requires 0 <= i < |batches| => ChangesOf(cfg, batches[i]))
  }

  function Flatten(batches: seq<seq<nat>>): seq<nat> {
    if batches == [] then [] else Flatten(batches[..|batches| - 1]) + batches[|batches| - 1]
  }

  /** The list is that of the batches so far; a batch that empties it is about to delete the index. */
  ghost predicate ListOk(cfg: Config, s: State) {
    && AllInRange(cfg, s.batches) && s.log == Flatten(s.batches)
    && Manifests(s.tag) == ThenAll(Manifests(cfg.tag0), ChangesByBatch(cfg, s.batches))
    && (Current(s) ==> forall c :: c in Mains(s) && s.callers[c].phase.Deleting? && !s.callers[c].phase.applied ==>
          InRange(cfg, Cur(s).items) && Updated(Manifests(s.tag), ChangesOf(cfg, Cur(s).items)) == Some([]))
  }

  lemma BatchAppended(cfg: Config, batches: seq<seq<nat>>, items: seq<nat>)
    requires AllInRange(cfg, batches) && InRange(cfg, items)
    ensures AllInRange(cfg, batches + [items]) && Flatten(batches + [items]) == Flatten(batches) + items
    ensures ThenAll(Manifests(cfg.tag0), ChangesByBatch(cfg, batches + [items])) ==
              Then(ThenAll(Manifests(cfg.tag0), ChangesByBatch(cfg, batches)), ChangesOf(cfg, items))
  {
    var all := batches + [items];
    assert all[..|batches|] == batches;
    assert ChangesByBatch(cfg, all)[..|batches|] == ChangesByBatch(cfg, batches);
  }

  /** A step that writes nothing and does not make a main caller delete. */
  lemma QuietList(cfg: Config, s: State, s': State, c: nat)
    requires ListOk(cfg, s) && OneCaller(s, s', c) && s'.tag == s.tag && s'.log == s.log && s'.batches == s.batches
    requires !s'.callers[c].phase.Deleting? || s'.callers[c].phase == s.callers[c].phase
    requires Current(s') ==> (Current(s) && Cur(s').items == Cur(s).items) || (forall d :: d in Mains(s') ==> !s'.callers[d].phase.Deleting?)
    ensures ListOk(cfg, s')
  {
    if Current(s') {
      forall d | d in Mains(s') && s'.callers[d].phase.Deleting? && !s'.callers[d].phase.applied
        ensures InRange(cfg, Cur(s').items) && Updated(Manifests(s'.tag), ChangesOf(cfg, Cur(s').items)) == Some([])
      {
        assert s'.callers[d].phase == s.callers[d].phase;
        assert d in Mains(s);
      }
    }
  }

  lemma AssignList(cfg: Config, s: State, c: nat)
    requires Inv(cfg, s) && ListOk(cfg, s) && Enabled(cfg, s, Assign(c))
    ensures ListOk(cfg, Apply(cfg, s, Assign(c)))
  {
    assert c in Active(s);
    var s' := Apply(cfg, s, Assign(c));
    OneCallerMoves(s, s', c);
    NoDeleteBeforeCommit(s);
    hide ListOk, ChannelsOk, PoolOk;
    QuietList(cfg, s, s', c);
  }

  lemma NoDeleteBeforeCommit(s: State)
    requires ChannelsOk(s) && Current(s)
    ensures !Cur(s).committed ==> forall d :: d in Mains(s) ==> !s.callers[d].phase.Deleting?
  {
  }

  lemma MoveList(cfg: Config, s: State, c: nat)
    requires Inv(cfg, s) && ListOk(cfg, s) && Enabled(cfg, s, Move(c))
    ensures ListOk(cfg, Apply(cfg, s, Move(c)))
  {
    MainIsCurrent(cfg, s, c);
    MoveRetires(cfg, s, c);
    hide ListOk, PoolOk, ChannelsOk;
    QuietList(cfg, s, Apply(cfg, s, Move(c)), c);
  }

  lemma GetList(cfg: Config, s: State, c: nat)
    requires Inv(cfg, s) && ListOk(cfg, s) && Enabled(cfg, s, Get(c))
    ensures ListOk(cfg, Apply(cfg, s, Get(c)))
  {
    var s' := Apply(cfg, s, Get(c));
    OneCallerMoves(s, s', c);
    if s.pool.None? {
      NothingLeft(s);
    }
    hide ListOk, ChannelsOk;
    QuietList(cfg, s, s', c);
  }

  lemma CommitList(cfg: Config, s: State, c: nat)
    requires Inv(cfg, s) && ListOk(cfg, s) && Enabled(cfg, s, Commit(c))
    ensures ListOk(cfg, Apply(cfg, s, Commit(c)))
  {
    MainIsCurrent(cfg, s, c);
    hide Inv, ListOk;
    QuietList(cfg, s, Apply(cfg, s, Commit(c)), c);
  }

  lemma OtherList(cfg: Config, s: State, step: Step)
    requires ListOk(cfg, s) && Enabled(cfg, s, step) && (step.Receive? || step.Prepare? || step.Notify? || step.Leave?)
    ensures ListOk(cfg, Apply(cfg, s, step))
  {
    hide ListOk;
    QuietList(cfg, s, Apply(cfg, s, step), step.c);
  }

  /** A step of the only main caller that may write. */
  lemma WriteList(cfg: Config, s: State, s': State, c: nat)
    requires ListOk(cfg, s) && OneCaller(s, s', c) && Current(s) && s'.merges == s.merges && s'.pool == s.pool
    requires InRange(cfg, Cur(s).items) && forall d :: d in Mains(s) ==> d == c
    requires || (s'.batches == s.batches && s'.log == s.log && Manifests(s'.tag) == Manifests(s.tag))
             || (&& s'.batches == s.batches + [Cur(s).items] && s'.log == s.log + Cur(s).items
                 && Manifests(s'.tag) == Then(Manifests(s.tag), ChangesOf(cfg, Cur(s).items)))
    requires s'.callers[c].phase.Deleting? && !s'.callers[c].phase.applied ==>
               Manifests(s'.tag) == Manifests(s.tag) && Updated(Manifests(s.tag), ChangesOf(cfg, Cur(s).items)) == Some([])
    ensures ListOk(cfg, s')
  {
    BatchAppended(cfg, s.batches, Cur(s).items);
    hide Updated, Then, ThenAll, ChangesByBatch, Flatten, AllInRange;
    forall d | d in Mains(s') ensures d == c {
      assert d != c ==> d in Mains(s);
    }
  }

  lemma ResolveList(cfg: Config, s: State, c: nat)
    requires WellFormed(cfg) && FullInv(cfg, s) && ListOk(cfg, s) && Enabled(cfg, s, Resolve(c))
    ensures ListOk(cfg, Apply(cfg, s, Resolve(c)))
  {
    Writing(cfg, s, c);
    hide ListOk, FullInv, Updated;
    WriteList(cfg, s, Apply(cfg, s, Resolve(c)), c);
  }

  lemma PushList(cfg: Config, s: State, c: nat, stored: bool, ok: bool)
    requires WellFormed(cfg) && FullInv(cfg, s) && ListOk(cfg, s) && Enabled(cfg, s, Push(c, stored, ok))
    ensures ListOk(cfg, Apply(cfg, s, Push(c, stored, ok)))
  {
    Writing(cfg, s, c);
    hide ListOk, FullInv, Updated;
    WriteList(cfg, s, Apply(cfg, s, Push(c, stored, ok)), c);
  }

  lemma DeleteList(cfg: Config, s: State, c: nat, effective: bool, ok: bool)
    requires WellFormed(cfg) && FullInv(cfg, s) && ListOk(cfg, s) && Enabled(cfg, s, Delete(c, effective, ok))
    ensures ListOk(cfg, Apply(cfg, s, Delete(c, effective, ok)))
  {
    Writing(cfg, s, c);
    assert c in Mains(s);
    hide FullInv, Updated;
    WriteList(cfg, s, Apply(cfg, s, Delete(c, effective, ok)), c);
  }

  lemma StepKeepsList(cfg: Config, s: State, step: Step)
    requires WellFormed(cfg) && FullInv(cfg, s) && ListOk(cfg, s) && Enabled(cfg, s, step)
    ensures ListOk(cfg, Apply(cfg, s, step))
  {
    assert Inv(cfg, s);
    hide FullInv, ListOk, Enabled, Apply, WellFormed, Inv;
    match step
    case Get(c) => GetList(cfg, s, c);
    case Assign(c) => AssignList(cfg, s, c);
    case Move(c) => MoveList(cfg, s, c);
    case Commit(c) => CommitList(cfg, s, c);
    case Resolve(c) => ResolveList(cfg, s, c);
    case Push(c, stored, ok) => PushList(cfg, s, c, stored, ok);
    case Delete(c, effective, ok) => DeleteList(cfg, s, c, effective, ok);
    case _ => OtherList(cfg, s, step);
  }

  /** In every state the stored list is the initial one after one update for each logged batch, in order. */
  lemma {:induction false} StoredListIsFold(cfg: Config, states: seq<State>, steps: seq<Step>, i: nat)
    requires WellFormed(cfg) && IsRun(cfg, states, steps) && i < |states|
    ensures ListOk(cfg, states[i])
  {
    hide FullInv, Enabled, Apply, WellFormed;
    if i == 0 {
      StartsEmpty(cfg);
    } else {
      StoredListIsFold(cfg, states, steps, i - 1);
      RunKeepsFull(cfg, states, steps, i - 1);
      assert Enabled(cfg, states[i - 1], steps[i - 1]);
      StepKeepsList(cfg, states[i - 1], steps[i - 1]);
    }
  }

  lemma StartsEmpty(cfg: Config)
    ensures ListOk(cfg, Init(cfg))
  {
    assert ChangesByBatch(cfg, []) == [];
  }

  /** A batch is not the same as its changes one by one: removing and adding a referrer in one batch leaves the list alone, which no sequence of the two does. */
  lemma BatchIsNotSequential(a: Descriptor, b: Descriptor)
    requires !IsEmpty(a) && !IsEmpty(b) && FromOCI(a) != FromOCI(b)
    ensures Then([a, b], [Remove(a), Add(a)]) == [a, b]
    ensures ThenAll([a, b], [[Remove(a)], [Add(a)]]) == [b, a]
    ensures ThenAll([a, b], [[Add(a)], [Remove(a)]]) == [b]
  {
    var x, y := [[Remove(a)], [Add(a)]], [[Add(a)], [Remove(a)]];
    assert x[..1] == [[Remove(a)]] && y[..1] == [[Add(a)]];
    RemoveFirst(a, b);
    AddLast(a, b);
    AddAgain(a, b);
    RemoveAndAdd(a, b);
    OneBatch([a, b], [Remove(a)]);
    OneBatch([a, b], [Add(a)]);
    hide Then;
    assert ThenAll([a, b], x) == Then(ThenAll([a, b], x[..1]), [Add(a)]);
    assert ThenAll([a, b], y) == Then(ThenAll([a, b], y[..1]), [Remove(a)]);
  }

  lemma OneBatch(list: seq<Descriptor>, changes: seq<Change>)
    ensures ThenAll(list, [changes]) == Then(list, changes)
  {
    assert [changes][..0] == [];
  }

  lemma OneChange(ks: set<Key>, list: seq<Descriptor>, c: Change)
    ensures ApplyKeys(ks, [c]) == ApplyKey(ks, c) && ApplyAll(list, [c]) == ApplyOne(list, c)
  {
    assert [c][..0] == [];
  }

  lemma RemoveAndAdd(a: Descriptor, b: Descriptor)
    requires !IsEmpty(a) && !IsEmpty(b) && FromOCI(a) != FromOCI(b)
    ensures Then([a, b], [Remove(a), Add(a)]) == [a, b]
  {
    TwoClean(a, b);
    var changes, ks := [Remove(a), Add(a)], {FromOCI(a), FromOCI(b)};
    assert changes[..1] == [Remove(a)];
    OneChange(ks, [a, b], Remove(a));
    assert ApplyKeys(ks, changes) == ks - {FromOCI(a)} + {FromOCI(a)} == ks;
  }

  lemma OneClean(a: Descriptor)
    requires !IsEmpty(a)
    ensures Clean([a]) == [a] && KeySet([a]) == {FromOCI(a)} && NonEmpty([a]) == [a]
  {
    assert [a][..0] == [];
    KeySetAppend([], a);
    assert [] + [a] == [a] && KeySet([]) == {};
    HasKey([], FromOCI(a));
  }

  lemma TwoClean(a: Descriptor, b: Descriptor)
    requires !IsEmpty(a) && !IsEmpty(b) && FromOCI(a) != FromOCI(b)
    ensures Clean([a, b]) == [a, b] && KeySet([a, b]) == {FromOCI(a), FromOCI(b)} && NonEmpty([a, b]) == [a, b]
  {
    OneClean(a);
    assert [a, b][..1] == [a] && [a] + [b] == [a, b];
    KeySetAppend([a], b);
    HasKey([a], FromOCI(b));
  }

  lemma RemoveFirst(a: Descriptor, b: Descriptor)
    requires !IsEmpty(a) && !IsEmpty(b) && FromOCI(a) != FromOCI(b)
    ensures Then([a, b], [Remove(a)]) == [b]
  {
    TwoClean(a, b);
    OneClean(b);
    var ks := {FromOCI(a), FromOCI(b)};
    OneChange(ks, [a, b], Remove(a));
    assert FromOCI(a) in ks && FromOCI(a) !in ApplyKeys(ks, [Remove(a)]);
    assert [a, b][..1] == [a] && [a][..0] == [];
    assert Without([], FromOCI(a)) == [] && Without([a], FromOCI(a)) == [];
    assert Without([a, b], FromOCI(a)) == Without([a], FromOCI(a)) + [b] == [b];
  }

  lemma AddLast(a: Descriptor, b: Descriptor)
    requires !IsEmpty(a) && !IsEmpty(b) && FromOCI(a) != FromOCI(b)
    ensures Then([b], [Add(a)]) == [b, a]
  {
    OneClean(b);
    TwoClean(b, a);
    OneChange({FromOCI(b)}, [b], Add(a));
    assert FromOCI(a) in ApplyKeys({FromOCI(b)}, [Add(a)]);
    HasKey([b], FromOCI(a));
    assert ApplyAll([b], [Add(a)]) == [b, a];
  }

  lemma AddAgain(a: Descriptor, b: Descriptor)
    requires !IsEmpty(a) && !IsEmpty(b) && FromOCI(a) != FromOCI(b)
    ensures Then([a, b], [Add(a)]) == [a, b]
  {
    TwoClean(a, b);
    var ks := {FromOCI(a), FromOCI(b)};
    OneChange(ks, [a, b], Add(a));
    assert ApplyKeys(ks, [Add(a)]) == ks;
  }
}
