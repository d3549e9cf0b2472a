/** No acknowledged update of a referrers index is lost, and nobody is left waiting. */
module MergeResults {
  import opened Descriptors
  import opened Referrers
  import opened MergeProtocol
  import opened MergeSafety
  import opened Sequences
  import opened Sums

  /** The referrers an index lists, by key. */
  ghost function Stored(index: Option<Index>): set<Key> {
    KeySet(Manifests(index)) - {EMPTY_KEY}
  }

  /** The descriptors handed to an update are those of real manifests. */
  ghost predicate WellFormed(cfg: Config) {
    forall c :: 0 <= c < |cfg.changes| ==> !IsEmpty(cfg.changes[c].referrer)
  }

  /** The batch of this main caller has not taken effect yet. */
  ghost predicate Unapplied(phase: Phase) {
    phase.Preparing? || phase.Committing? || phase.Resolving? || phase.Pushing? || (phase.Deleting? && !phase.applied)
  }

  /** The batch of this main caller has taken effect. */
  ghost predicate Applied(phase: Phase) {
    (phase.Deleting? && phase.applied) || (phase.Notifying? && phase.ok) || (phase.Moving? && phase.ok)
  }

  ghost predicate Disjoint(a: seq<nat>, b: seq<nat>) {
    forall c :: c in a ==> c !in b
  }

  ghost predicate CallerLogOk(s: State, c: nat)
    requires c < |s.callers|
  {
    var phase := s.callers[c].phase;
    && (phase.Idle? || phase.Got? ==> c !in s.log)
    && (phase == Leaving(true) || phase == Returned(true) ==> c in s.log)
    && (phase.Waiting? && phase.ch < |s.chans| && s.chans[phase.ch].closed ==> c in s.log)
  }

  ghost predicate BatchLogOk(s: State)
    requires Current(s)
  {
    && Disjoint(Cur(s).pending, s.log)
    && (Mains(s) == {} ==> Disjoint(Cur(s).items, s.log))
    && (forall c :: c in Mains(s) && Unapplied(s.callers[c].phase) ==> Disjoint(Cur(s).items, s.log))
    && (forall c :: c in Mains(s) && Applied(s.callers[c].phase) ==> Elems(Cur(s).items) <= Elems(s.log))
  }

  ghost predicate LogOk(s: State) {
    && NoDuplicates(s.log)
    && (forall c :: c in s.log ==> c < |s.callers|)
    && (forall c: nat :: c < |s.callers| ==> CallerLogOk(s, c))
    && (Current(s) ==> BatchLogOk(s))
  }

  ghost predicate InRange(cfg: Config, cs: seq<nat>) {
    forall i :: 0 <= i < |cs| ==> cs[i] < |cfg.changes|
  }

  /** What the main caller read is still what the tag holds, until it writes. */
  ghost predicate ReadOk(cfg: Config, s: State, phase: Phase, items: seq<nat>)
    requires InRange(cfg, items)
  {
    match phase
    case Committing(Old(x)) => s.tag == x
    case Resolving(x) => s.tag == x
    case Pushing(x, next) => s.tag == x && Updated(Manifests(x), ChangesOf(cfg, items)) == Some(next)
    case Deleting(old_, true) => s.tag.Some? && s.tag.value != old_
    case Deleting(old_, false) => s.tag == Some(old_) && ApplyKeys(Stored(s.tag), ChangesOf(cfg, items)) == {}
    case _ => true
  }

  /** The stored referrers are the initial ones with the logged changes applied in the order of the log. */
  ghost predicate RegistryOk(cfg: Config, s: State) {
    && InRange(cfg, s.log)
    && Stored(s.tag) == ApplyKeys(Stored(cfg.tag0), ChangesOf(cfg, s.log))
    && (Current(s) ==> InRange(cfg, Cur(s).items) && forall c :: c in Mains(s) ==> ReadOk(cfg, s, s.callers[c].phase, Cur(s).items))
  }

  // ---- The effect of one batch ----

  lemma {:induction false} ApplyKeysConcat(ks: set<Key>, a: seq<Change>, b: seq<Change>)
    ensures ApplyKeys(ks, a + b) == ApplyKeys(ApplyKeys(ks, a), b)
  {
    if b == [] {
      assert a + b == a;
    } else {
      var n := |b| - 1;
      assert (a + b)[..|a| + n] == a + b[..n];
      ApplyKeysConcat(ks, a, b[..n]);
    }
  }

  lemma {:induction false} EmptyIsIrrelevant(ks: set<Key>, cs: seq<Change>)
    requires AddsNoEmpty(cs)
    ensures ApplyKeys(ks, cs) - {EMPTY_KEY} == ApplyKeys(ks - {EMPTY_KEY}, cs)
  {
    if cs != [] {
      EmptyIsIrrelevant(ks, cs[..|cs| - 1]);
    }
  }

  /** Whether an update is written or suppressed, the stored keys become those the changes ask for; a written list differs from the old one. */
  lemma UpdateEffect(x: Option<Index>, cs: seq<Change>)
    requires AddsNoEmpty(cs)
    ensures Updated(Manifests(x), cs).None? ==> ApplyKeys(Stored(x), cs) == Stored(x)
    ensures Updated(Manifests(x), cs).Some? ==>
              && ApplyKeys(Stored(x), cs) == Stored(Some(GenerateIndex(Updated(Manifests(x), cs).value)))
              && Updated(Manifests(x), cs).value != Manifests(x)
  {
    var list := Manifests(x);
    EmptyIsIrrelevant(KeySet(list), cs);
    if Updated(list, cs).Some? {
      CleanKeys(list);
      EmptyStaysOut(KeySet(Clean(list)), cs);
      UpdateChangesList(list, cs);
      ApplyAllKeys(Clean(list), cs);
      NonEmptyKeys(ApplyAll(Clean(list), cs));
      EmptyStaysOut(KeySet(list) - {EMPTY_KEY}, cs);
    }
  }

  lemma LogAppend(cfg: Config, s: State, items: seq<nat>)
    requires InRange(cfg, s.log) && InRange(cfg, items)
    requires Stored(s.tag) == ApplyKeys(Stored(cfg.tag0), ChangesOf(cfg, s.log))
    ensures InRange(cfg, s.log + items)
    ensures ApplyKeys(Stored(cfg.tag0), ChangesOf(cfg, s.log + items)) == ApplyKeys(Stored(s.tag), ChangesOf(cfg, items))
  {
    assert ChangesOf(cfg, s.log + items) == ChangesOf(cfg, s.log) + ChangesOf(cfg, items);
    ApplyKeysConcat(Stored(cfg.tag0), ChangesOf(cfg, s.log), ChangesOf(cfg, items));
  }

  ghost predicate FullInv(cfg: Config, s: State) {
    Inv(cfg, s) && LogOk(s) && RegistryOk(cfg, s)
  }

  lemma InitFull(cfg: Config)
    ensures FullInv(cfg, Init(cfg))
  {
    InitInv(cfg);
    assert ChangesOf(cfg, []) == [];
  }

  // ---- Steps that leave the registry alone ----

  ghost predicate Writes(step: Step) {
    step.Resolve? || step.Push? || step.Delete?
  }

  /** With the log unchanged and no channel closed, only the moving caller needs a look. */
  lemma QuietCallers(s: State, s': State, c: nat)
    requires LogOk(s) && AllRetiredOk(s) && OneCaller(s, s', c) && s'.log == s.log && |s.chans| <= |s'.chans|
    requires forall ch: nat :: ch < |s.chans| && s'.chans[ch].closed ==> s.chans[ch].closed
    requires CallerLogOk(s', c)
    ensures forall d: nat :: d < |s'.callers| ==> CallerLogOk(s', d)
  {
    forall d: nat | d < |s'.callers| ensures CallerLogOk(s', d) {
      assert CallerLogOk(s, d);
    }
  }

  lemma GetLog(cfg: Config, s: State, c: nat)
    requires FullInv(cfg, s) && Enabled(cfg, s, Get(c))
    ensures LogOk(Apply(cfg, s, Get(c)))
  {
    hide RetiredOk, PendingOk, StatusOk, RegistryOk;
    var s' := Apply(cfg, s, Get(c));
    OneCallerMoves(s, s', c);
    assert CallerLogOk(s, c);
    QuietCallers(s, s', c);
  }

  lemma AssignLog(cfg: Config, s: State, c: nat)
    requires FullInv(cfg, s) && Enabled(cfg, s, Assign(c))
    ensures LogOk(Apply(cfg, s, Assign(c)))
  {
    hide RetiredOk, RegistryOk, StatusOk, PendingOk, BatchLogOk;
    var s' := Apply(cfg, s, Assign(c));
    assert c in Active(s);
    assert CallerLogOk(s, c);
    AssignOpen(cfg, s, c);
    QuietCallers(s, s', c);
    AssignBatchLog(cfg, s, c);
  }

  /** While the assignment window is open, the batch has not taken effect. */
  lemma WindowIsUnapplied(s: State)
    requires Current(s) && StatusOk(s, Cur(s))
    ensures !Cur(s).committed ==> forall d :: d in Mains(s) ==> !AfterCommit(s.callers[d].phase)
  {
    hide MainOk, Waiters;
  }

  lemma AssignEffect(cfg: Config, s: State, c: nat)
    requires Enabled(cfg, s, Assign(c)) && Current(s) && s.callers[c].m == s.pool.value.m
    ensures var s' := Apply(cfg, s, Assign(c));
            && OneCaller(s, s', c) && Current(s') && s'.log == s.log && s'.callers[c].phase.Waiting? && s.callers[c].phase.Got?
            && Cur(s').items == (if Cur(s).committed then Cur(s).items else Cur(s).items + [c])
            && Cur(s').pending == (if Cur(s).committed then Cur(s).pending + [c] else Cur(s).pending)
  {
  }

  /** One caller more in a batch that has not taken effect. */
  lemma BatchLogGrows(s: State, s': State, c: nat)
    requires Current(s) && Current(s') && BatchLogOk(s) && s'.log == s.log && c !in s.log
    requires Mains(s') == Mains(s) && forall d :: d in Mains(s) ==> s'.callers[d].phase == s.callers[d].phase
    requires Cur(s').items == (if Cur(s).committed then Cur(s).items else Cur(s).items + [c])
    requires Cur(s').pending == (if Cur(s).committed then Cur(s).pending + [c] else Cur(s).pending)
    requires !Cur(s).committed ==> forall d :: d in Mains(s) ==> !AfterCommit(s.callers[d].phase)
    ensures BatchLogOk(s')
  {
    assert forall d :: d in Cur(s').items ==> d in Cur(s).items || (d == c && !Cur(s).committed);
    assert forall d :: d in Cur(s').pending ==> d in Cur(s).pending || d == c;
    if Cur(s).committed {
      assert Elems(Cur(s').items) == Elems(Cur(s).items);
    }
    hide Elems;
  }

  lemma AssignBatchLog(cfg: Config, s: State, c: nat)
    requires Inv(cfg, s) && Enabled(cfg, s, Assign(c)) && Current(s) && s.callers[c].m == s.pool.value.m
    requires BatchLogOk(s) && c !in s.log
    ensures BatchLogOk(Apply(cfg, s, Assign(c)))
  {
    WindowIsUnapplied(s);
    AssignEffect(cfg, s, c);
    hide Inv, StatusOk, Apply, Enabled, BatchLogOk;
    var s' := Apply(cfg, s, Assign(c));
    OneCallerMoves(s, s', c);
    hide Active, Waiters;
    BatchLogGrows(s, s', c);
  }

  /** A caller is never assigned to a closed channel. */
  lemma AssignOpen(cfg: Config, s: State, c: nat)
    requires Inv(cfg, s) && Enabled(cfg, s, Assign(c)) && Current(s) && s.callers[c].m == s.pool.value.m
    ensures var s' := Apply(cfg, s, Assign(c));
            s'.callers[c].phase.Waiting? && s'.callers[c].phase.ch < |s'.chans| && !s'.chans[s'.callers[c].phase.ch].closed
  {
    if !Cur(s).committed && Cur(s).status.Some? {
      OpenWindow(s);
    }
  }

  lemma ReceiveLog(cfg: Config, s: State, c: nat)
    requires FullInv(cfg, s) && Enabled(cfg, s, Receive(c))
    ensures LogOk(Apply(cfg, s, Receive(c)))
  {
    var s' := Apply(cfg, s, Receive(c));
    assert c in Active(s);
    assert CallerLogOk(s, c);
    QuietCallers(s, s', c);
    ReceiveBatchLog(cfg, s, c);
  }

  lemma ReceiveBatchLog(cfg: Config, s: State, c: nat)
    requires FullInv(cfg, s) && Enabled(cfg, s, Receive(c)) && Current(s)
    ensures BatchLogOk(Apply(cfg, s, Receive(c)))
  {
    hide Inv, RegistryOk, CallerLogOk;
    var s' := Apply(cfg, s, Receive(c));
    OneCallerMoves(s, s', c);
    if s'.callers[c].phase.Preparing? {
      TokenMeansNoMain(cfg, s, c);
      assert Mains(s') == {c};
    } else {
      assert Mains(s') == Mains(s);
    }
  }

  /** The main token is only in a channel while nobody holds it. */
  lemma TokenMeansNoMain(cfg: Config, s: State, c: nat)
    requires Inv(cfg, s) && Enabled(cfg, s, Receive(c)) && Current(s)
    requires s.chans[s.callers[c].phase.ch].buffer != [] && s.chans[s.callers[c].phase.ch].buffer[0].Main?
    ensures Mains(s) == {} && Cur(s).status == Some(s.callers[c].phase.ch)
  {
    RetiredHoldsNoToken(s, s.callers[c].phase.ch);
  }

  lemma RetiredHoldsNoToken(s: State, ch: nat)
    requires AllRetiredOk(s) && ch < |s.chans|
    ensures InBatch(s, ch) || s.chans[ch].buffer == [] || s.chans[ch].buffer[0].Error?
  {
    assert InBatch(s, ch) || RetiredOk(s, ch);
  }

  lemma MainQuietLog(cfg: Config, s: State, step: Step)
    requires FullInv(cfg, s) && Enabled(cfg, s, step) && (step.Prepare? || step.Commit?)
    ensures LogOk(Apply(cfg, s, step))
  {
    hide PoolOk, StatusOk, PendingOk, RetiredOk, RegistryOk;
    var s' := Apply(cfg, s, step);
    MainIsCurrent(cfg, s, step.c);
    OneCallerMoves(s, s', step.c);
    assert step.c in Mains(s);
    QuietCallers(s, s', step.c);
  }

  lemma NotifyLog(cfg: Config, s: State, c: nat)
    requires FullInv(cfg, s) && Enabled(cfg, s, Notify(c))
    ensures LogOk(Apply(cfg, s, Notify(c)))
  {
    var s' := Apply(cfg, s, Notify(c));
    MainIsCurrent(cfg, s, c);
    NotifyBatchLog(cfg, s, c);
    if s.callers[c].phase.ok {
      CloseLog(cfg, s, c);
    } else {
      QuietCallers(s, s', c);
    }
  }

  lemma NotifyBatchLog(cfg: Config, s: State, c: nat)
    requires FullInv(cfg, s) && Enabled(cfg, s, Notify(c)) && Current(s) && s.callers[c].m == s.pool.value.m
    ensures BatchLogOk(Apply(cfg, s, Notify(c))) && c in Mains(s)
  {
    hide Inv, RegistryOk, CallerLogOk;
    var s' := Apply(cfg, s, Notify(c));
    assert c in Mains(s);
    OneCallerMoves(s, s', c);
    assert Mains(s') == Mains(s);
  }

  /** Closing the status channel acknowledges logged callers only. */
  lemma CloseLog(cfg: Config, s: State, c: nat)
    requires FullInv(cfg, s) && Enabled(cfg, s, Notify(c)) && s.callers[c].phase.ok
    requires Current(s) && s.callers[c].m == s.pool.value.m && Cur(s).status.Some? && c in Mains(s)
    ensures var s' := Apply(cfg, s, Notify(c)); forall d: nat :: d < |s'.callers| ==> CallerLogOk(s', d)
  {
    var s' := Apply(cfg, s, Notify(c));
    var ch := Cur(s).status.value;
    assert MainOk(s, Cur(s).items, ch, c);
    assert forall d :: d in Waiters(s, ch) ==> d in s.log;
    forall d: nat | d < |s'.callers| ensures CallerLogOk(s', d) {
      assert CallerLogOk(s, d);
      assert s.callers[d].phase == Waiting(ch) ==> d in Waiters(s, ch);
    }
  }

  lemma MoveLog(cfg: Config, s: State, c: nat)
    requires FullInv(cfg, s) && Enabled(cfg, s, Move(c))
    ensures LogOk(Apply(cfg, s, Move(c)))
  {
    var s' := Apply(cfg, s, Move(c));
    MainIsCurrent(cfg, s, c);
    MoveRetires(cfg, s, c);
    assert c in Mains(s) && c in Elems(Cur(s).items);
    QuietCallers(s, s', c);
  }

  lemma LeaveLog(cfg: Config, s: State, c: nat)
    requires FullInv(cfg, s) && Enabled(cfg, s, Leave(c))
    ensures LogOk(Apply(cfg, s, Leave(c)))
  {
    hide RetiredOk, PendingOk, StatusOk, RegistryOk;
    var s' := Apply(cfg, s, Leave(c));
    OneCallerMoves(s, s', c);
    assert CallerLogOk(s, c);
    QuietCallers(s, s', c);
  }

  ghost predicate BatchReads(cfg: Config, s: State)
    requires Current(s)
  {
    InRange(cfg, Cur(s).items) && forall c :: c in Mains(s) ==> ReadOk(cfg, s, s.callers[c].phase, Cur(s).items)
  }

  /** What a main caller knows before it commits does not depend on the items. */
  lemma EarlyReads(cfg: Config, s: State, s': State, phase: Phase, items: seq<nat>, more: seq<nat>)
    requires IsMain(phase) && !AfterCommit(phase) && s'.tag == s.tag
    requires InRange(cfg, items) && InRange(cfg, more) && ReadOk(cfg, s, phase, items)
    ensures ReadOk(cfg, s', phase, more)
  {
  }

  lemma AssignReads(cfg: Config, s: State, c: nat)
    requires FullInv(cfg, s) && Enabled(cfg, s, Assign(c)) && Current(s) && s.callers[c].m == s.pool.value.m
    ensures BatchReads(cfg, Apply(cfg, s, Assign(c)))
  {
    assert |s.callers| == |cfg.changes|;
    hide ChannelsOk, PoolOk, LogOk, ReadOk;
    if Cur(s).committed {
      SameBatchReads(cfg, s, Apply(cfg, s, Assign(c)), c);
    } else {
      OpenAssignReads(cfg, s, c);
    }
  }

  lemma OpenAssignReads(cfg: Config, s: State, c: nat)
    requires ChannelsOk(s) && RegistryOk(cfg, s) && Enabled(cfg, s, Assign(c)) && |s.callers| == |cfg.changes|
    requires Current(s) && s.callers[c].m == s.pool.value.m && !Cur(s).committed
    ensures BatchReads(cfg, Apply(cfg, s, Assign(c)))
  {
    hide AllRetiredOk, PendingOk, MainOk, ReadOk;
    var s' := Apply(cfg, s, Assign(c));
    OneCallerMoves(s, s', c);
    assert Cur(s').items == Cur(s).items + [c];
    forall d | d in Mains(s') ensures ReadOk(cfg, s', s'.callers[d].phase, Cur(s').items) {
      assert d in Mains(s);
      EarlyReads(cfg, s, s', s.callers[d].phase, Cur(s).items, Cur(s').items);
    }
  }

  /** A step that neither writes nor changes the batch keeps what the main caller has read. */
  lemma SameBatchReads(cfg: Config, s: State, s': State, c: nat)
    requires RegistryOk(cfg, s) && OneCaller(s, s', c) && s'.tag == s.tag
    requires Current(s) && Current(s') && Cur(s').items == Cur(s).items
    requires c in Mains(s') ==> ReadOk(cfg, s', s'.callers[c].phase, Cur(s).items)
    ensures BatchReads(cfg, s')
  {
    OneCallerMoves(s, s', c);
    forall d | d in Mains(s') ensures ReadOk(cfg, s', s'.callers[d].phase, Cur(s').items) {
      if d != c {
        assert d in Mains(s);
        assert ReadOk(cfg, s, s.callers[d].phase, Cur(s).items);
      }
    }
  }

  lemma MainReads(cfg: Config, s: State, step: Step)
    requires FullInv(cfg, s) && Enabled(cfg, s, step) && (step.Prepare? || step.Commit? || step.Notify?)
    ensures Current(Apply(cfg, s, step)) && BatchReads(cfg, Apply(cfg, s, step))
  {
    var c := step.c;
    MainIsCurrent(cfg, s, c);
    assert c in Mains(s) && ReadOk(cfg, s, s.callers[c].phase, Cur(s).items);
    SameBatchReads(cfg, s, Apply(cfg, s, step), c);
  }

  lemma OtherReads(cfg: Config, s: State, step: Step)
    requires FullInv(cfg, s) && Enabled(cfg, s, step) && (step.Get? || step.Receive? || step.Leave?)
    requires Current(s) && Current(Apply(cfg, s, step))
    ensures BatchReads(cfg, Apply(cfg, s, step))
  {
    assert step.c in Active(s) || step.Get?;
    SameBatchReads(cfg, s, Apply(cfg, s, step), step.c);
  }

  lemma FirstGetReads(cfg: Config, s: State, c: nat)
    requires FullInv(cfg, s) && Enabled(cfg, s, Get(c)) && s.pool.None?
    ensures BatchReads(cfg, Apply(cfg, s, Get(c)))
  {
    NothingLeft(s);
    OneCallerMoves(s, Apply(cfg, s, Get(c)), c);
  }

  lemma BatchInRange(cfg: Config, s: State)
    requires Inv(cfg, s) && Current(s)
    ensures InRange(cfg, Cur(s).items) && InRange(cfg, Cur(s).pending)
  {
    forall i | 0 <= i < |Cur(s).items| ensures Cur(s).items[i] < |cfg.changes| {
      assert Cur(s).items[i] in Cur(s).items;
    }
    forall i | 0 <= i < |Cur(s).pending| ensures Cur(s).pending[i] < |cfg.changes| {
      assert Cur(s).pending[i] in Cur(s).pending;
    }
  }

  lemma MoveReads(cfg: Config, s: State, c: nat)
    requires FullInv(cfg, s) && Enabled(cfg, s, Move(c))
    ensures Current(Apply(cfg, s, Move(c))) && BatchReads(cfg, Apply(cfg, s, Move(c)))
  {
    MainIsCurrent(cfg, s, c);
    BatchInRange(cfg, s);
    MoveRetires(cfg, s, c);
  }

  lemma QuietReads(cfg: Config, s: State, step: Step)
    requires FullInv(cfg, s) && Enabled(cfg, s, step) && !Writes(step)
    requires Current(Apply(cfg, s, step))
    ensures BatchReads(cfg, Apply(cfg, s, step))
  {
    if step.Assign? {
      assert step.c in Active(s);
      AssignReads(cfg, s, step.c);
    } else if step.Get? && s.pool.None? {
      FirstGetReads(cfg, s, step.c);
    } else if step.Move? {
      MoveReads(cfg, s, step.c);
    } else if step.Prepare? || step.Commit? || step.Notify? {
      MainReads(cfg, s, step);
    } else {
      OtherReads(cfg, s, step);
    }
  }

  // ---- Steps that may write ----

  lemma ItemsAddNoEmpty(cfg: Config, items: seq<nat>)
    requires WellFormed(cfg) && InRange(cfg, items)
    ensures AddsNoEmpty(ChangesOf(cfg, items))
  {
  }

  /** The items of a batch that has not been applied are still waiting, but for the main caller. */
  lemma BatchWaits(cfg: Config, s: State, c: nat)
    requires Inv(cfg, s) && c < |s.callers| && IsMain(s.callers[c].phase) && Unapplied(s.callers[c].phase) && Current(s)
    ensures forall d :: d in Cur(s).items ==> d == c || (d < |s.callers| && s.callers[d].phase.Waiting?)
  {
    MainIsCurrent(cfg, s, c);
    assert c in Mains(s) && MainOk(s, Cur(s).items, Cur(s).status.value, c);
    forall d | d in Cur(s).items && d != c ensures d < |s.callers| && s.callers[d].phase.Waiting? {
      assert d in Elems(Cur(s).items) - {c};
      assert d in Waiters(s, Cur(s).status.value);
    }
  }

  lemma EffectCallers(cfg: Config, s: State, s': State, c: nat)
    requires FullInv(cfg, s) && OneCaller(s, s', c) && Unapplied(s.callers[c].phase) && IsMain(s'.callers[c].phase)
    requires Current(s) && s'.chans == s.chans && s'.log == s.log + Cur(s).items
    ensures forall d: nat :: d < |s'.callers| ==> CallerLogOk(s', d)
  {
    BatchWaits(cfg, s, c);
    assert forall d :: d in s'.log <==> d in s.log || d in Cur(s).items;
    forall d: nat | d < |s'.callers| ensures CallerLogOk(s', d) {
      assert CallerLogOk(s, d);
    }
  }

  /** A main caller whose batch takes effect: the log grows by the batch. */
  lemma EffectLog(cfg: Config, s: State, s': State, c: nat)
    requires FullInv(cfg, s) && OneCaller(s, s', c) && Unapplied(s.callers[c].phase)
    requires IsMain(s'.callers[c].phase) && !Unapplied(s'.callers[c].phase)
    requires Current(s) && s'.chans == s.chans && s'.merges == s.merges && s'.pool == s.pool && s'.log == s.log + Cur(s).items
    ensures LogOk(s')
  {
    EffectCallers(cfg, s, s', c);
    EffectBatch(cfg, s, s', c);
  }

  lemma EffectBatch(cfg: Config, s: State, s': State, c: nat)
    requires FullInv(cfg, s) && OneCaller(s, s', c) && Unapplied(s.callers[c].phase)
    requires IsMain(s'.callers[c].phase) && !Unapplied(s'.callers[c].phase)
    requires Current(s) && s'.chans == s.chans && s'.merges == s.merges && s'.pool == s.pool && s'.log == s.log + Cur(s).items
    ensures BatchLogOk(s') && NoDuplicates(s'.log)
  {
    OneCallerMoves(s, s', c);
    assert c in Mains(s) && Mains(s) == {c} && Mains(s') == {c};
    assert forall d :: d in s'.log <==> d in s.log || d in Cur(s).items;
    NoDuplicatesConcat(s.log, Cur(s).items);
    PendingApart(s);
  }

  /** Nobody is both in the current batch and pending. */
  lemma PendingApart(s: State)
    requires ChannelsOk(s) && Current(s) && forall c :: c in Mains(s) ==> Unapplied(s.callers[c].phase)
    ensures Disjoint(Cur(s).pending, Cur(s).items)
  {
    forall d | d in Cur(s).pending ensures d !in Cur(s).items {
      assert d in Elems(Cur(s).pending);
      assert d in Waiters(s, Cur(s).pendingStatus.value);
      var c :| c in Mains(s);
      assert MainOk(s, Cur(s).items, Cur(s).status.value, c);
      assert d !in Waiters(s, Cur(s).status.value) && d != c;
      assert d !in Elems(Cur(s).items);
    }
  }

  /** A main caller goes on without a new effect. */
  lemma NoEffectLog(cfg: Config, s: State, s': State, c: nat)
    requires FullInv(cfg, s) && OneCaller(s, s', c) && IsMain(s.callers[c].phase) && IsMain(s'.callers[c].phase)
    requires Current(s) && s'.chans == s.chans && s'.merges == s.merges && s'.pool == s.pool && s'.log == s.log
    requires Unapplied(s'.callers[c].phase) ==> Unapplied(s.callers[c].phase)
    requires Applied(s'.callers[c].phase) ==> Applied(s.callers[c].phase)
    ensures LogOk(s')
  {
    MainIsCurrent(cfg, s, c);
    OneCallerMoves(s, s', c);
    assert c in Mains(s) && Mains(s') == {c};
    QuietCallers(s, s', c);
  }

  /** After a writing step the registry is as the grown log says, and the main caller's view is still right. */
  lemma WriteRegistry(cfg: Config, s: State, s': State, c: nat)
    requires RegistryOk(cfg, s) && OneCaller(s, s', c) && Current(s) && s'.merges == s.merges && s'.pool == s.pool
    requires forall d :: d in Mains(s) ==> d == c
    requires InRange(cfg, Cur(s).items)
    requires || (s'.log == s.log && Stored(s'.tag) == Stored(s.tag))
             || (s'.log == s.log + Cur(s).items && Stored(s'.tag) == ApplyKeys(Stored(s.tag), ChangesOf(cfg, Cur(s).items)))
    requires ReadOk(cfg, s', s'.callers[c].phase, Cur(s).items)
    ensures RegistryOk(cfg, s')
  {
    LogAppend(cfg, s, Cur(s).items);
    OneCallerMoves(s, s', c);
  }

  /** What is known when the main caller of a batch writes. */
  lemma Writing(cfg: Config, s: State, c: nat)
    requires WellFormed(cfg) && FullInv(cfg, s) && c < |s.callers| && IsMain(s.callers[c].phase)
    ensures Current(s) && s.callers[c].m == s.pool.value.m && InRange(cfg, Cur(s).items)
    ensures forall d :: d in Mains(s) ==> d == c
    ensures ReadOk(cfg, s, s.callers[c].phase, Cur(s).items)
    ensures AddsNoEmpty(ChangesOf(cfg, Cur(s).items))
  {
    MainIsCurrent(cfg, s, c);
    assert c in Mains(s);
    ItemsAddNoEmpty(cfg, Cur(s).items);
  }

  lemma ResolveKeeps(cfg: Config, s: State, c: nat)
    requires WellFormed(cfg) && FullInv(cfg, s) && Enabled(cfg, s, Resolve(c))
    ensures LogOk(Apply(cfg, s, Resolve(c))) && RegistryOk(cfg, Apply(cfg, s, Resolve(c)))
  {
    var s' := Apply(cfg, s, Resolve(c));
    Writing(cfg, s, c);
    UpdateEffect(s.tag, ChangesOf(cfg, Cur(s).items));
    WriteRegistry(cfg, s, s', c);
    if s'.callers[c].phase.Notifying? {
      EffectLog(cfg, s, s', c);
    } else {
      NoEffectLog(cfg, s, s', c);
    }
  }

  lemma PushKeeps(cfg: Config, s: State, c: nat, stored: bool, ok: bool)
    requires WellFormed(cfg) && FullInv(cfg, s) && Enabled(cfg, s, Push(c, stored, ok))
    ensures LogOk(Apply(cfg, s, Push(c, stored, ok))) && RegistryOk(cfg, Apply(cfg, s, Push(c, stored, ok)))
  {
    var s' := Apply(cfg, s, Push(c, stored, ok));
    Writing(cfg, s, c);
    UpdateEffect(s.tag, ChangesOf(cfg, Cur(s).items));
    WriteRegistry(cfg, s, s', c);
    if stored {
      EffectLog(cfg, s, s', c);
    } else {
      NoEffectLog(cfg, s, s', c);
    }
  }

  lemma DeleteKeeps(cfg: Config, s: State, c: nat, effective: bool, ok: bool)
    requires WellFormed(cfg) && FullInv(cfg, s) && Enabled(cfg, s, Delete(c, effective, ok))
    ensures LogOk(Apply(cfg, s, Delete(c, effective, ok))) && RegistryOk(cfg, Apply(cfg, s, Delete(c, effective, ok)))
  {
    var s' := Apply(cfg, s, Delete(c, effective, ok));
    Writing(cfg, s, c);
    assert Stored(None) == {};
    WriteRegistry(cfg, s, s', c);
    if effective && !s.callers[c].phase.applied {
      EffectLog(cfg, s, s', c);
    } else {
      NoEffectLog(cfg, s, s', c);
    }
  }

  lemma QuietKeeps(cfg: Config, s: State, step: Step)
    requires FullInv(cfg, s) && Enabled(cfg, s, step) && !Writes(step)
    ensures LogOk(Apply(cfg, s, step)) && RegistryOk(cfg, Apply(cfg, s, step))
  {
    hide LogOk, Inv, ReadOk, Enabled;
    QuietLog(cfg, s, step);
    if Current(Apply(cfg, s, step)) {
      QuietReads(cfg, s, step);
    }
  }

  lemma StepKeepsFull(cfg: Config, s: State, step: Step)
    requires WellFormed(cfg) && FullInv(cfg, s) && Enabled(cfg, s, step)
    ensures FullInv(cfg, Apply(cfg, s, step))
  {
    hide Enabled, Apply, Inv, LogOk, RegistryOk, WellFormed;
    StepKeepsInv(cfg, s, step);
    match step
    case Resolve(c) => ResolveKeeps(cfg, s, c);
    case Push(c, stored, ok) => PushKeeps(cfg, s, c, stored, ok);
    case Delete(c, effective, ok) => DeleteKeeps(cfg, s, c, effective, ok);
    case _ => QuietKeeps(cfg, s, step);
  }

  lemma QuietLog(cfg: Config, s: State, step: Step)
    requires FullInv(cfg, s) && Enabled(cfg, s, step) && !Writes(step)
    ensures LogOk(Apply(cfg, s, step))
  {
    var c := step.c;
    match step
    case Get(_) => GetLog(cfg, s, c);
    case Assign(_) => AssignLog(cfg, s, c);
    case Receive(_) => ReceiveLog(cfg, s, c);
    case Notify(_) => NotifyLog(cfg, s, c);
    case Move(_) => MoveLog(cfg, s, c);
    case Leave(_) => LeaveLog(cfg, s, c);
    case _ => MainQuietLog(cfg, s, step);
  }

  lemma {:induction false} RunKeepsFull(cfg: Config, states: seq<State>, steps: seq<Step>, i: nat)
    requires WellFormed(cfg) && IsRun(cfg, states, steps) && i < |states|
    ensures FullInv(cfg, states[i])
  {
    if i == 0 {
      InitFull(cfg);
    } else {
      RunKeepsFull(cfg, states, steps, i - 1);
      assert Enabled(cfg, states[i - 1], steps[i - 1]);
      StepKeepsFull(cfg, states[i - 1], steps[i - 1]);
    }
  }

  // ---- Results ----

  /** In every state the stored referrers are the initial ones with the logged changes applied one after the other; every caller that was told nil is in the log, nobody twice. */
  lemma NoUpdateIsLost(cfg: Config, states: seq<State>, steps: seq<Step>, i: nat)
    requires WellFormed(cfg) && IsRun(cfg, states, steps) && i < |states|
    ensures NoDuplicates(states[i].log) && InRange(cfg, states[i].log)
    ensures Stored(states[i].tag) == ApplyKeys(Stored(cfg.tag0), ChangesOf(cfg, states[i].log))
    ensures forall c: nat :: c < |states[i].callers| && states[i].callers[c].phase == Returned(true) ==> c in states[i].log
  {
    var s := states[i];
    RunKeepsFull(cfg, states, steps, i);
    forall c: nat | c < |s.callers| && s.callers[c].phase == Returned(true) ensures c in s.log {
      assert CallerLogOk(s, c);
    }
  }

  ghost predicate AllToldNil(cfg: Config, s: State) {
    forall c: nat :: c < |cfg.changes| ==> c < |s.callers| && s.callers[c].phase == Returned(true)
  }

  /** If all callers were told nil, the log is a permutation of the callers: the stored referrers are all changes applied in some sequential order. */
  lemma AllNilMeansAllApplied(cfg: Config, states: seq<State>, steps: seq<Step>)
    requires WellFormed(cfg) && IsRun(cfg, states, steps) && AllToldNil(cfg, states[|steps|])
    ensures var s := states[|steps|];
            && NoDuplicates(s.log)
            && (forall c: nat :: c in s.log <==> c < |cfg.changes|)
            && InRange(cfg, s.log) && Stored(s.tag) == ApplyKeys(Stored(cfg.tag0), ChangesOf(cfg, s.log))
  {
    var s := states[|steps|];
    NoUpdateIsLost(cfg, states, steps, |steps|);
    RunKeepsInv(cfg, states, steps, |steps|);
    forall c: nat ensures c in s.log <==> c < |cfg.changes| {
      if c in s.log {
        var i :| 0 <= i < |s.log| && s.log[i] == c;
      }
    }
  }

  /** All active callers share one merge object, and at most one of them is between prepare and complete. */
  lemma OneMergeOneMain(cfg: Config, states: seq<State>, steps: seq<Step>, i: nat, c: nat, d: nat)
    requires IsRun(cfg, states, steps) && i < |states|
    requires c in Active(states[i]) && d in Active(states[i])
    ensures states[i].callers[c].m == states[i].callers[d].m
    ensures IsMain(states[i].callers[c].phase) && IsMain(states[i].callers[d].phase) ==> c == d
  {
    var s := states[i];
    RunKeepsInv(cfg, states, steps, i);
    if IsMain(s.callers[c].phase) && IsMain(s.callers[d].phase) {
      assert c in Mains(s) && d in Mains(s);
    }
  }

  /** Deleting the dangling index after a push never takes the tag away from the index just pushed. */
  lemma DeleteKeepsNewIndex(cfg: Config, states: seq<State>, steps: seq<Step>, i: nat, c: nat, ok: bool)
    requires WellFormed(cfg) && IsRun(cfg, states, steps) && i < |states|
    requires Enabled(cfg, states[i], Delete(c, true, ok)) && states[i].callers[c].phase.applied
    ensures Apply(cfg, states[i], Delete(c, true, ok)).tag == states[i].tag && states[i].tag.Some?
  {
    RunKeepsFull(cfg, states, steps, i);
    Writing(cfg, states[i], c);
  }

  // ---- Nobody is left waiting ----

  ghost predicate AllReturned(s: State) {
    forall c: nat :: c < |s.callers| ==> s.callers[c].phase.Returned?
  }

  lemma MainCanStep(cfg: Config, s: State, c: nat) returns (step: Step)
    requires Inv(cfg, s) && c < |s.callers| && IsMain(s.callers[c].phase)
    ensures Enabled(cfg, s, step) && !IsFault(step)
  {
    MainIsCurrent(cfg, s, c);
    BatchInRange(cfg, s);
    assert c in Mains(s);
    var ch := Cur(s).status.value;
    assert MainOk(s, Cur(s).items, ch, c);
    match s.callers[c].phase
    case Preparing => step := Prepare(c, true);
    case Committing(_) => step := Commit(c);
    case Resolving(_) => step := Resolve(c);
    case Pushing(_, _) => step := Push(c, true, true);
    case Deleting(_, _) => step := Delete(c, true, true);
    case Moving(_) => step := Move(c);
    case Notifying(ok, remaining) =>
      if ok || remaining == 0 || s.chans[ch].buffer == [] {
        step := Notify(c);
      } else {
        var d :| d in Waiters(s, ch);
        step := Receive(d);
      }
  }

  lemma WaiterCanStep(cfg: Config, s: State, c: nat) returns (step: Step)
    requires Inv(cfg, s) && Mains(s) == {} && c < |s.callers| && s.callers[c].phase.Waiting?
    ensures Enabled(cfg, s, step) && !IsFault(step)
  {
    var ch := s.callers[c].phase.ch;
    assert c in Active(s) && c in Waiters(s, ch);
    assert !InBatch(s, ch) ==> RetiredOk(s, ch);
    step := Receive(c);
  }

  /** As long as a caller has not returned, some step is possible. */
  lemma NeverStuck(cfg: Config, s: State) returns (step: Step)
    requires Inv(cfg, s) && !AllReturned(s)
    ensures Enabled(cfg, s, step) && !IsFault(step)
  {
    if c :| c in Mains(s) {
      step := MainCanStep(cfg, s, c);
    } else {
      var c: nat :| c < |s.callers| && !s.callers[c].phase.Returned?;
      assert IsMain(s.callers[c].phase) ==> c in Mains(s);
      assert IsActive(s.callers[c].phase) ==> c in Active(s);
      if s.callers[c].phase.Idle? {
        step := Get(c);
      } else if s.callers[c].phase.Got? {
        step := Assign(c);
      } else if s.callers[c].phase.Waiting? {
        step := WaiterCanStep(cfg, s, c);
      } else {
        step := Leave(c);
      }
    }
  }

  function Weight(n: nat, phase: Phase): nat {
    match phase
    case Idle => n + 11
    case Got => n + 10
    case Waiting(_) => n + 9
    case Preparing => n + 8
    case Committing(_) => n + 7
    case Resolving(_) => n + 6
    case Pushing(_, _) => n + 5
    case Deleting(_, _) => n + 4
    case Notifying(_, remaining) => 3 + remaining
    case Moving(_) => 2
    case Leaving(_) => 1
    case Returned(_) => 0
  }

  function Potential(cfg: Config, s: State): nat {
    Sum(s.callers, (caller: Caller) => Weight(|cfg.changes|, caller.phase))
  }

  /** A batch has no more items than there are callers. */
  lemma BatchSize(cfg: Config, s: State)
    requires Inv(cfg, s) && Current(s)
    ensures |Cur(s).items| <= |cfg.changes|
  {
    ElemsSize(Cur(s).items);
    BelowSize(Elems(Cur(s).items), |cfg.changes|);
  }

  lemma {:induction false} BelowSize(t: set<nat>, n: nat)
    requires forall x :: x in t ==> x < n
    ensures |t| <= n
  {
    if n > 0 {
      BelowSize(t - {n - 1}, n - 1);
    }
  }

  ghost predicate Lowers(cfg: Config, s: State, s': State, c: nat) {
    OneCaller(s, s', c) && Weight(|cfg.changes|, s'.callers[c].phase) < Weight(|cfg.changes|, s.callers[c].phase)
  }

  lemma QuietLowers(cfg: Config, s: State, step: Step)
    requires Enabled(cfg, s, step) && (step.Get? || step.Assign? || step.Receive? || step.Prepare? || step.Notify? || step.Move? || step.Leave?)
    ensures Lowers(cfg, s, Apply(cfg, s, step), step.c)
  {
  }

  lemma BatchLowers(cfg: Config, s: State, step: Step)
    requires Enabled(cfg, s, step) && (step.Commit? || step.Resolve?)
    requires |s.merges[s.callers[step.c].m].items| <= |cfg.changes|
    ensures Lowers(cfg, s, Apply(cfg, s, step), step.c)
  {
  }

  lemma WriteLowers(cfg: Config, s: State, step: Step)
    requires Enabled(cfg, s, step) && (step.Push? || step.Delete?)
    requires |s.merges[s.callers[step.c].m].items| <= |cfg.changes|
    ensures Lowers(cfg, s, Apply(cfg, s, step), step.c)
  {
  }

  lemma StepLowers(cfg: Config, s: State, step: Step)
    requires Inv(cfg, s) && Enabled(cfg, s, step)
    ensures Potential(cfg, Apply(cfg, s, step)) < Potential(cfg, s)
  {
    var c := step.c;
    var s' := Apply(cfg, s, step);
    if step.Commit? || step.Resolve? || step.Push? || step.Delete? {
      MainIsCurrent(cfg, s, c);
      BatchSize(cfg, s);
      if step.Commit? || step.Resolve? {
        BatchLowers(cfg, s, step);
      } else {
        WriteLowers(cfg, s, step);
      }
    } else {
      QuietLowers(cfg, s, step);
    }
    SumUpdate(s.callers, c, s'.callers[c], (caller: Caller) => Weight(|cfg.changes|, caller.phase));
  }

  /** Every run is finite. */
  lemma {:induction false} RunsAreBounded(cfg: Config, states: seq<State>, steps: seq<Step>, i: nat)
    requires IsRun(cfg, states, steps) && i < |states|
    ensures i + Potential(cfg, states[i]) <= Potential(cfg, Init(cfg))
  {
    if i > 0 {
      RunsAreBounded(cfg, states, steps, i - 1);
      RunKeepsInv(cfg, states, steps, i - 1);
      assert Enabled(cfg, states[i - 1], steps[i - 1]);
      StepLowers(cfg, states[i - 1], steps[i - 1]);
    }
  }

  /** A run that cannot be extended without a fault has let every caller return. */
  lemma MaximalRunReturnsAll(cfg: Config, states: seq<State>, steps: seq<Step>)
    requires IsRun(cfg, states, steps)
    requires forall step :: Enabled(cfg, states[|steps|], step) ==> IsFault(step)
    ensures AllReturned(states[|steps|])
  {
    RunKeepsInv(cfg, states, steps, |steps|);
    if !AllReturned(states[|steps|]) {
      var step := NeverStuck(cfg, states[|steps|]);
    }
  }
}
