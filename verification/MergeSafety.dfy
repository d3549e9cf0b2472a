/** What every interleaving of the merge protocol keeps. */
module MergeSafety {
  import opened Descriptors
  import opened Sequences
  import opened MergeProtocol

  ghost function Elems(s: seq<nat>): set<nat> {
    set x | x in s
  }

  /** Between receiving the main token and staging the next batch. */
  predicate IsMain(phase: Phase) {
    phase.Preparing? || phase.Committing? || AfterCommit(phase)
  }

  predicate AfterCommit(phase: Phase) {
    phase.Resolving? || phase.Pushing? || phase.Deleting? || phase.Notifying? || phase.Moving?
  }

  predicate IsActive(phase: Phase) {
    !phase.Idle? && !phase.Returned?
  }

  ghost function Active(s: State): set<nat> {
    set c: nat | c < |s.callers| && IsActive(s.callers[c].phase)
  }

  ghost function Mains(s: State): set<nat> {
    set c: nat | c < |s.callers| && IsMain(s.callers[c].phase)
  }

  ghost function Waiters(s: State, ch: nat): set<nat> {
    set c: nat | c < |s.callers| && s.callers[c].phase == Waiting(ch)
  }

  /** The pool item exists while callers are active, counts them, and is the one all of them use. */
  ghost predicate PoolOk(cfg: Config, s: State) {
    && |s.callers| == |cfg.changes|
    && (s.pool.None? ==> Active(s) == {})
    && (s.pool.Some? ==>
          && s.pool.value.m < |s.merges|
          && s.pool.value.refCount == |Active(s)| > 0
          && forall c :: c in Active(s) ==> s.callers[c].m == s.pool.value.m)
  }

  ghost predicate Current(s: State) {
    s.pool.Some? && s.pool.value.m < |s.merges|
  }

  ghost function Cur(s: State): Merge
    requires Current(s)
  {
    s.merges[s.pool.value.m]
  }

  ghost predicate ErrorsOnly(chan: Channel) {
    chan.buffer == [] || chan.buffer == [Error]
  }

  /** The channel of the current batch, as the main caller c sees it. */
  ghost predicate MainOk(s: State, items: seq<nat>, ch: nat, c: nat)
    requires ch < |s.chans| && c < |s.callers|
  {
    var chan := s.chans[ch];
    match s.callers[c].phase
    case Notifying(false, r) => !chan.closed && ErrorsOnly(chan) && |Waiters(s, ch)| == r + |chan.buffer| && r < |items|
    case Moving(true) => chan == Channel([], true)
    case Moving(false) => !chan.closed && ErrorsOnly(chan) && |Waiters(s, ch)| == |chan.buffer|
    case _ => chan == Channel([], false) && Waiters(s, ch) == Elems(items) - {c}
  }

  ghost predicate StatusOk(s: State, merge: Merge) {
    && NoDuplicates(merge.items)
    && (forall c :: c in merge.items ==> c < |s.callers|)
    && (merge.items == [] <==> merge.status.None?)
    && (forall c, d :: c in Mains(s) && d in Mains(s) ==> c == d)
    && (forall c :: c in Mains(s) ==> c in merge.items && merge.committed == AfterCommit(s.callers[c].phase))
    && (merge.committed ==> Mains(s) != {})
    && (merge.status.Some? ==>
          && merge.status.value < |s.chans|
          && (Mains(s) == {} ==> s.chans[merge.status.value] == Channel([Main], false) && Waiters(s, merge.status.value) == Elems(merge.items))
          && (forall c :: c in Mains(s) ==> MainOk(s, merge.items, merge.status.value, c)))
  }

  ghost predicate PendingOk(s: State, merge: Merge) {
    && NoDuplicates(merge.pending)
    && (forall c :: c in merge.pending ==> c < |s.callers|)
    && (merge.pending == [] <==> merge.pendingStatus.None?)
    && (merge.pending != [] ==> merge.committed)
    && (merge.pendingStatus.Some? ==>
          && merge.pendingStatus.value < |s.chans|
          && merge.pendingStatus != merge.status
          && s.chans[merge.pendingStatus.value] == Channel([], false)
          && Waiters(s, merge.pendingStatus.value) == Elems(merge.pending))
  }

  /** A channel of a finished batch: closed, or holding exactly the errors still to be received. */
  ghost predicate RetiredOk(s: State, ch: nat)
    requires ch < |s.chans|
  {
    && ErrorsOnly(s.chans[ch])
    && (s.chans[ch].closed ==> s.chans[ch].buffer == [])
    && (!s.chans[ch].closed ==> |Waiters(s, ch)| == |s.chans[ch].buffer|)
  }

  ghost predicate InBatch(s: State, ch: nat) {
    Current(s) && (Cur(s).status == Some(ch) || Cur(s).pendingStatus == Some(ch))
  }

  ghost predicate AllRetiredOk(s: State) {
    && (forall c: nat :: c < |s.callers| && s.callers[c].phase.Waiting? ==> s.callers[c].phase.ch < |s.chans|)
    && (forall ch: nat :: ch < |s.chans| && !InBatch(s, ch) ==> RetiredOk(s, ch))
  }

  ghost predicate ChannelsOk(s: State) {
    && AllRetiredOk(s)
    && (Current(s) ==> StatusOk(s, Cur(s)) && PendingOk(s, Cur(s)))
  }

  ghost predicate Inv(cfg: Config, s: State) {
    PoolOk(cfg, s) && ChannelsOk(s)
  }

  // ---- How the derived sets change when one caller moves ----

  ghost predicate OneCaller(s: State, s': State, c: nat) {
    c < |s.callers| && |s'.callers| == |s.callers| && s'.callers == s.callers[c := s'.callers[c]]
  }

  lemma WaitersMove(s: State, s': State, c: nat, ch: nat)
    requires OneCaller(s, s', c)
    ensures Waiters(s', ch) == Waiters(s, ch) - {c} + if s'.callers[c].phase == Waiting(ch) then {c} else {}
    ensures s.callers[c].phase == Waiting(ch) <==> c in Waiters(s, ch)
  {
    forall d ensures d in Waiters(s', ch) <==> (d in Waiters(s, ch) && d != c) || (d == c && s'.callers[c].phase == Waiting(ch)) {
    }
  }

  lemma OneCallerMoves(s: State, s': State, c: nat)
    requires OneCaller(s, s', c)
    ensures IsActive(s.callers[c].phase) == IsActive(s'.callers[c].phase) ==> Active(s') == Active(s)
    ensures IsMain(s.callers[c].phase) == IsMain(s'.callers[c].phase) ==> Mains(s') == Mains(s)
    ensures forall ch: nat :: s.callers[c].phase != Waiting(ch) && s'.callers[c].phase != Waiting(ch) ==> Waiters(s', ch) == Waiters(s, ch)
    ensures forall ch: nat :: s.callers[c].phase == Waiting(ch) && s'.callers[c].phase != Waiting(ch) ==>
              Waiters(s', ch) == Waiters(s, ch) - {c} && |Waiters(s', ch)| == |Waiters(s, ch)| - 1
    ensures forall ch: nat :: s.callers[c].phase != Waiting(ch) && s'.callers[c].phase == Waiting(ch) ==> Waiters(s', ch) == Waiters(s, ch) + {c}
  {
    assert forall d: nat :: d < |s.callers| && d != c ==> s'.callers[d] == s.callers[d];
    assert IsActive(s.callers[c].phase) == IsActive(s'.callers[c].phase) ==> Active(s') == Active(s);
    assert IsMain(s.callers[c].phase) == IsMain(s'.callers[c].phase) ==> Mains(s') == Mains(s);
    hide Waiters, Active, Mains;
    forall ch: nat
      ensures Waiters(s', ch) == Waiters(s, ch) - {c} + if s'.callers[c].phase == Waiting(ch) then {c} else {}
      ensures s.callers[c].phase == Waiting(ch) <==> c in Waiters(s, ch)
    {
      WaitersMove(s, s', c, ch);
    }
  }

  /** A finished channel stays in order unless the moving caller waited on it. */
  lemma RetiredStay(s: State, s': State, c: nat)
    requires OneCaller(s, s', c) && AllRetiredOk(s) && |s.chans| <= |s'.chans|
    requires s'.callers[c].phase.Waiting? ==> s'.callers[c].phase.ch < |s'.chans|
    requires forall ch: nat :: ch < |s'.chans| && !InBatch(s', ch) ==>
               || RetiredOk(s', ch)
               || (&& ch < |s.chans| && !InBatch(s, ch) && s'.chans[ch] == s.chans[ch]
                   && s.callers[c].phase != Waiting(ch) && s'.callers[c].phase != Waiting(ch))
    ensures AllRetiredOk(s')
  {
    OneCallerMoves(s, s', c);
    forall ch: nat | ch < |s'.chans| && !InBatch(s', ch) ensures RetiredOk(s', ch) {
      assert ch < |s.chans| && !InBatch(s, ch) ==> RetiredOk(s, ch);
    }
  }

  lemma PoolStays(cfg: Config, s: State, s': State, c: nat)
    requires PoolOk(cfg, s) && OneCaller(s, s', c) && s'.callers[c].m == s.callers[c].m
    requires IsActive(s.callers[c].phase) && IsActive(s'.callers[c].phase)
    requires s'.pool == s.pool && |s'.merges| == |s.merges|
    ensures PoolOk(cfg, s') && c in Active(s)
  {
    OneCallerMoves(s, s', c);
    assert c in Active(s);
  }

  lemma PendingStays(s: State, s': State, c: nat)
    requires ChannelsOk(s) && OneCaller(s, s', c) && Current(s) && Current(s') && |s.chans| <= |s'.chans|
    requires Cur(s').pending == Cur(s).pending && Cur(s').pendingStatus == Cur(s).pendingStatus
    requires Cur(s').status == Cur(s).status || Cur(s').status == Some(|s.chans|)
    requires Cur(s').committed == Cur(s).committed
    requires forall ch :: Cur(s).pendingStatus == Some(ch) ==>
               s'.chans[ch] == s.chans[ch] && s.callers[c].phase != Waiting(ch) && s'.callers[c].phase != Waiting(ch)
    ensures PendingOk(s', Cur(s'))
  {
    OneCallerMoves(s, s', c);
  }

  lemma ElemsAppend(s: seq<nat>, c: nat)
    ensures Elems(s + [c]) == Elems(s) + {c}
  {
  }

  lemma ElemsEmpty(s: seq<nat>)
    ensures Elems(s) == {} ==> s == []
  {
    if s != [] {
      assert s[0] in Elems(s);
    }
  }

  lemma {:induction false} ElemsSize(s: seq<nat>)
    requires NoDuplicates(s)
    ensures |Elems(s)| == |s|
  {
    if s != [] {
      var n := |s| - 1;
      ElemsSize(s[..n]);
      ElemsAppend(s[..n], s[n]);
      assert s[..n] + [s[n]] == s;
      assert s[n] !in s[..n];
    }
  }

  lemma InitInv(cfg: Config)
    ensures Inv(cfg, Init(cfg))
  {
    assert Active(Init(cfg)) == {};
  }

  lemma GetPool(cfg: Config, s: State, c: nat)
    requires Inv(cfg, s) && Enabled(cfg, s, Get(c))
    ensures PoolOk(cfg, Apply(cfg, s, Get(c)))
  {
    var s' := Apply(cfg, s, Get(c));
    assert c !in Active(s) && Active(s') == Active(s) + {c};
  }

  lemma GetKeeps(cfg: Config, s: State, c: nat)
    requires Inv(cfg, s) && Enabled(cfg, s, Get(c))
    ensures Inv(cfg, Apply(cfg, s, Get(c)))
  {
    var s' := Apply(cfg, s, Get(c));
    GetPool(cfg, s, c);
    RetiredStay(s, s', c);
    if s.pool.None? {
      NothingLeft(s);
      OneCallerMoves(s, s', c);
    } else {
      StatusStays(s, s', c);
      PendingStays(s, s', c);
    }
  }

  lemma AssignItemKeeps(cfg: Config, s: State, c: nat)
    requires Inv(cfg, s) && Enabled(cfg, s, Assign(c)) && !s.merges[s.callers[c].m].committed
    ensures Inv(cfg, Apply(cfg, s, Assign(c)))
  {
    var s' := Apply(cfg, s, Assign(c));
    PoolStays(cfg, s, s', c);
    RetiredStay(s, s', c);
    PendingStays(s, s', c);
    AssignItemStatus(cfg, s, c);
  }

  /** While the assignment window is open, exactly the items that are not the main caller wait. */
  lemma OpenWindow(s: State)
    requires ChannelsOk(s) && Current(s) && !Cur(s).committed && Cur(s).status.Some?
    ensures var ch := Cur(s).status.value;
            && s.chans[ch] == Channel(if Mains(s) == {} then [Main] else [], false)
            && Waiters(s, ch) == Elems(Cur(s).items) - Mains(s)
            && Mains(s) <= Elems(Cur(s).items)
  {
    if d :| d in Mains(s) {
      assert MainOk(s, Cur(s).items, Cur(s).status.value, d);
      assert Mains(s) == {d};
    }
  }

  lemma AssignItemWaiters(cfg: Config, s: State, c: nat)
    requires Inv(cfg, s) && Enabled(cfg, s, Assign(c)) && !s.merges[s.callers[c].m].committed
    requires Current(s) && s.callers[c].m == s.pool.value.m
    ensures var s' := Apply(cfg, s, Assign(c));
            var ch := Cur(s').status.value;
            && s'.chans[ch] == Channel(if Mains(s') == {} then [Main] else [], false)
            && Waiters(s', ch) == Elems(Cur(s').items) - Mains(s') && Mains(s') == Mains(s) && c !in Cur(s).items
  {
    var s' := Apply(cfg, s, Assign(c));
    OneCallerMoves(s, s', c);
    ElemsAppend(Cur(s).items, c);
    assert c !in Mains(s);
    if Cur(s).status.None? {
      NoOneYet(s, |s.chans|);
      assert Mains(s) == {};
    } else {
      OpenWindow(s);
      assert c !in Waiters(s, Cur(s).status.value);
      assert c !in Elems(Cur(s).items);
    }
  }

  lemma NoOneYet(s: State, ch: nat)
    requires AllRetiredOk(s) && |s.chans| <= ch
    ensures Waiters(s, ch) == {}
  {
  }

  lemma AssignItemMain(cfg: Config, s: State, c: nat, d: nat)
    requires Inv(cfg, s) && Enabled(cfg, s, Assign(c)) && !s.merges[s.callers[c].m].committed
    requires Current(s) && s.callers[c].m == s.pool.value.m && d in Mains(Apply(cfg, s, Assign(c)))
    ensures var s' := Apply(cfg, s, Assign(c));
            && d in Mains(s) && Cur(s').status.Some? && Cur(s').status.value < |s'.chans|
            && MainOk(s', Cur(s').items, Cur(s').status.value, d)
  {
    hide PoolOk, AllRetiredOk, PendingOk, Waiters;
    AssignItemWaiters(cfg, s, c);
    assert Apply(cfg, s, Assign(c)).callers[d] == s.callers[d];
  }

  lemma AssignItemStatus(cfg: Config, s: State, c: nat)
    requires Inv(cfg, s) && Enabled(cfg, s, Assign(c)) && !s.merges[s.callers[c].m].committed
    requires Current(s) && s.callers[c].m == s.pool.value.m
    ensures StatusOk(Apply(cfg, s, Assign(c)), Cur(Apply(cfg, s, Assign(c))))
  {
    hide PoolOk, AllRetiredOk, PendingOk, Waiters, MainOk;
    var s' := Apply(cfg, s, Assign(c));
    AssignItemWaiters(cfg, s, c);
    forall d | d in Mains(s') ensures d in Mains(s) && MainOk(s', Cur(s').items, Cur(s').status.value, d) {
      AssignItemMain(cfg, s, c, d);
      assert s'.callers[d] == s.callers[d];
    }
    assert Mains(s') == {} ==> forall d :: d in Mains(s) ==> d in Mains(s');
  }

  lemma AssignPendingPending(cfg: Config, s: State, c: nat)
    requires Inv(cfg, s) && Enabled(cfg, s, Assign(c)) && s.merges[s.callers[c].m].committed
    requires Current(s) && s.callers[c].m == s.pool.value.m
    ensures PendingOk(Apply(cfg, s, Assign(c)), Cur(Apply(cfg, s, Assign(c))))
  {
    var s' := Apply(cfg, s, Assign(c));
    OneCallerMoves(s, s', c);
    ElemsAppend(Cur(s).pending, c);
    if Cur(s).pendingStatus.None? {
      NoOneYet(s, |s.chans|);
    } else {
      assert c !in Waiters(s, Cur(s).pendingStatus.value);
      assert c !in Elems(Cur(s).pending);
    }
  }

  lemma AssignPendingKeeps(cfg: Config, s: State, c: nat)
    requires Inv(cfg, s) && Enabled(cfg, s, Assign(c)) && s.merges[s.callers[c].m].committed
    ensures Inv(cfg, Apply(cfg, s, Assign(c)))
  {
    var s' := Apply(cfg, s, Assign(c));
    PoolStays(cfg, s, s', c);
    RetiredStay(s, s', c);
    AssignPendingPending(cfg, s, c);
    StatusStays(s, s', c);
  }

  /** Receiving from the channel of the current batch: the main token, or an error or success of a batch being completed. */
  lemma ReceiveCurrentStatus(cfg: Config, s: State, c: nat)
    requires Inv(cfg, s) && Enabled(cfg, s, Receive(c))
    requires Current(s) && Cur(s).status == Some(s.callers[c].phase.ch)
    ensures StatusOk(Apply(cfg, s, Receive(c)), Cur(s))
  {
    if Mains(s) == {} {
      ReceiveToken(cfg, s, c);
    } else {
      ReceiveOutcome(cfg, s, c);
    }
  }

  lemma ReceiveToken(cfg: Config, s: State, c: nat)
    requires Inv(cfg, s) && Enabled(cfg, s, Receive(c)) && Mains(s) == {}
    requires Current(s) && Cur(s).status == Some(s.callers[c].phase.ch)
    ensures StatusOk(Apply(cfg, s, Receive(c)), Cur(s))
  {
    hide PoolOk, PendingOk, AllRetiredOk;
    var s' := Apply(cfg, s, Receive(c));
    var ch := s.callers[c].phase.ch;
    OneCallerMoves(s, s', c);
    assert c in Waiters(s, ch);
    assert Mains(s') == {c};
    assert MainOk(s', Cur(s).items, ch, c);
  }

  lemma ReceiveOutcome(cfg: Config, s: State, c: nat)
    requires Inv(cfg, s) && Enabled(cfg, s, Receive(c)) && Mains(s) != {}
    requires Current(s) && Cur(s).status == Some(s.callers[c].phase.ch)
    ensures StatusOk(Apply(cfg, s, Receive(c)), Cur(s))
  {
    hide PoolOk, PendingOk, AllRetiredOk;
    var s' := Apply(cfg, s, Receive(c));
    var ch := s.callers[c].phase.ch;
    OneCallerMoves(s, s', c);
    assert c in Waiters(s, ch);
    var d :| d in Mains(s);
    assert MainOk(s, Cur(s).items, ch, d);
    assert Mains(s') == Mains(s);
    assert MainOk(s', Cur(s).items, ch, d);
    assert forall e :: e in Mains(s') ==> e == d;
  }

  lemma StatusStays(s: State, s': State, c: nat)
    requires ChannelsOk(s) && OneCaller(s, s', c) && Current(s) && Current(s') && |s.chans| <= |s'.chans|
    requires Cur(s').items == Cur(s).items && Cur(s').status == Cur(s).status && Cur(s').committed == Cur(s).committed
    requires !IsMain(s.callers[c].phase) && !IsMain(s'.callers[c].phase)
    requires forall ch :: Cur(s).status == Some(ch) ==>
               s'.chans[ch] == s.chans[ch] && s.callers[c].phase != Waiting(ch) && s'.callers[c].phase != Waiting(ch)
    ensures StatusOk(s', Cur(s'))
  {
    OneCallerMoves(s, s', c);
    if Cur(s).status.Some? {
      forall d | d in Mains(s') ensures MainOk(s', Cur(s).items, Cur(s).status.value, d) {
        assert MainOk(s, Cur(s).items, Cur(s).status.value, d);
      }
    }
  }

  lemma ReceiveRetired(cfg: Config, s: State, c: nat)
    requires Inv(cfg, s) && Enabled(cfg, s, Receive(c)) && Current(s)
    ensures AllRetiredOk(Apply(cfg, s, Receive(c)))
    ensures Cur(s).status != Some(s.callers[c].phase.ch) ==> Apply(cfg, s, Receive(c)).callers[c].phase.Leaving?
    ensures Cur(s).pendingStatus != Some(s.callers[c].phase.ch)
  {
    var s' := Apply(cfg, s, Receive(c));
    var ch := s.callers[c].phase.ch;
    if Cur(s).status != Some(ch) {
      assert !InBatch(s, ch);
      assert RetiredOk(s, ch);
      OneCallerMoves(s, s', c);
      assert RetiredOk(s', ch);
    }
    RetiredStay(s, s', c);
  }

  lemma ReceiveKeeps(cfg: Config, s: State, c: nat)
    requires Inv(cfg, s) && Enabled(cfg, s, Receive(c))
    ensures Inv(cfg, Apply(cfg, s, Receive(c)))
  {
    var s' := Apply(cfg, s, Receive(c));
    PoolStays(cfg, s, s', c);
    ReceiveRetired(cfg, s, c);
    PendingStays(s, s', c);
    if Cur(s).status == Some(s.callers[c].phase.ch) {
      ReceiveCurrentStatus(cfg, s, c);
    } else {
      StatusStays(s, s', c);
    }
  }

  /** The main caller works for the batch; nobody has been notified yet. */
  ghost predicate Plain(phase: Phase) {
    IsMain(phase) && !phase.Moving? && !(phase.Notifying? && !phase.ok)
  }

  /** The main caller moves on without touching the channels; failing sets the number of errors to send. */
  ghost predicate MainMoves(s: State, s': State, c: nat) {
    && OneCaller(s, s', c) && s'.callers[c].m == s.callers[c].m
    && Plain(s.callers[c].phase) && Current(s)
    && s'.chans == s.chans && s'.pool == s.pool && |s'.merges| == |s.merges|
    && s'.merges[s.pool.value.m] == Cur(s).(committed := AfterCommit(s'.callers[c].phase))
    && (AfterCommit(s.callers[c].phase) ==> AfterCommit(s'.callers[c].phase))
    && (Plain(s'.callers[c].phase) || (Cur(s).items != [] && s'.callers[c].phase == Notifying(false, |Cur(s).items| - 1)))
  }

  lemma MainStaysMain(cfg: Config, s: State, s': State, c: nat)
    requires Inv(cfg, s) && MainMoves(s, s', c)
    ensures Cur(s).status.Some? && Cur(s).status.value < |s.chans| && MainOk(s', Cur(s).items, Cur(s).status.value, c)
  {
    hide AllRetiredOk, PendingOk, PoolOk;
    OneCallerMoves(s, s', c);
    assert c in Mains(s);
    assert MainOk(s, Cur(s).items, Cur(s).status.value, c);
    ElemsSize(Cur(s).items);
  }

  lemma MainAdvances(cfg: Config, s: State, s': State, c: nat)
    requires Inv(cfg, s) && MainMoves(s, s', c)
    ensures Inv(cfg, s')
  {
    MainStaysMain(cfg, s, s', c);
    OneCallerMoves(s, s', c);
    RetiredStay(s, s', c);
    assert c in Active(s) && c in Mains(s);
    hide MainOk;
    assert StatusOk(s', Cur(s')) && PendingOk(s', Cur(s'));
  }

  lemma MainIsCurrent(cfg: Config, s: State, c: nat)
    requires Inv(cfg, s) && c < |s.callers| && IsMain(s.callers[c].phase)
    ensures Current(s) && s.callers[c].m == s.pool.value.m && Cur(s).status.Some? && c in Cur(s).items
    ensures Cur(s).committed == AfterCommit(s.callers[c].phase)
  {
    assert c in Active(s) && c in Mains(s);
  }

  lemma NotifyMain(cfg: Config, s: State, c: nat)
    requires Inv(cfg, s) && Enabled(cfg, s, Notify(c)) && Current(s) && s.callers[c].m == s.pool.value.m
    requires Cur(s).status.Some? && Cur(s).status.value < |s.chans| && MainOk(s, Cur(s).items, Cur(s).status.value, c)
    ensures MainOk(Apply(cfg, s, Notify(c)), Cur(s).items, Cur(s).status.value, c)
  {
    OneCallerMoves(s, Apply(cfg, s, Notify(c)), c);
  }

  lemma NotifyStatus(cfg: Config, s: State, c: nat)
    requires Inv(cfg, s) && Enabled(cfg, s, Notify(c)) && Current(s) && s.callers[c].m == s.pool.value.m && Cur(s).status.Some?
    ensures StatusOk(Apply(cfg, s, Notify(c)), Cur(s))
  {
    assert c in Mains(s);
    NotifyMain(cfg, s, c);
    OneCallerMoves(s, Apply(cfg, s, Notify(c)), c);
    assert Mains(s) == {c};
  }

  lemma NotifyKeeps(cfg: Config, s: State, c: nat)
    requires Inv(cfg, s) && Enabled(cfg, s, Notify(c))
    ensures Inv(cfg, Apply(cfg, s, Notify(c)))
  {
    var s' := Apply(cfg, s, Notify(c));
    MainIsCurrent(cfg, s, c);
    PoolStays(cfg, s, s', c);
    RetiredStay(s, s', c);
    PendingStays(s, s', c);
    NotifyStatus(cfg, s, c);
  }

  lemma MoveRetires(cfg: Config, s: State, c: nat)
    requires Inv(cfg, s) && Enabled(cfg, s, Move(c)) && Current(s) && s.callers[c].m == s.pool.value.m && Cur(s).status.Some?
    ensures AllRetiredOk(Apply(cfg, s, Move(c))) && Mains(Apply(cfg, s, Move(c))) == {}
  {
    var s' := Apply(cfg, s, Move(c));
    var ch := Cur(s).status.value;
    OneCallerMoves(s, s', c);
    assert c in Mains(s) && MainOk(s, Cur(s).items, ch, c);
    assert Mains(s') == Mains(s) - {c};
    assert s'.chans[ch] == s.chans[ch];
    assert RetiredOk(s', ch);
    RetiredStay(s, s', c);
  }

  lemma MoveKeeps(cfg: Config, s: State, c: nat)
    requires Inv(cfg, s) && Enabled(cfg, s, Move(c))
    ensures Inv(cfg, Apply(cfg, s, Move(c)))
  {
    var s' := Apply(cfg, s, Move(c));
    MainIsCurrent(cfg, s, c);
    PoolStays(cfg, s, s', c);
    MoveRetires(cfg, s, c);
    OneCallerMoves(s, s', c);
  }

  lemma LeavePool(cfg: Config, s: State, c: nat)
    requires Inv(cfg, s) && Enabled(cfg, s, Leave(c))
    ensures PoolOk(cfg, Apply(cfg, s, Leave(c)))
  {
    var s' := Apply(cfg, s, Leave(c));
    assert c in Active(s) && Active(s') == Active(s) - {c};
    assert |Active(s')| == |Active(s)| - 1;
  }

  lemma LeaveLast(cfg: Config, s: State, c: nat)
    requires Inv(cfg, s) && Enabled(cfg, s, Leave(c)) && Current(s)
    requires Active(Apply(cfg, s, Leave(c))) == {}
    ensures Cur(s).status.None? && Cur(s).pendingStatus.None?
  {
    var s' := Apply(cfg, s, Leave(c));
    NothingLeft(s');
    OneCallerMoves(s, s', c);
    EmptyBatch(s);
  }

  lemma LeaveKeeps(cfg: Config, s: State, c: nat)
    requires Inv(cfg, s) && Enabled(cfg, s, Leave(c))
    ensures Inv(cfg, Apply(cfg, s, Leave(c)))
  {
    var s' := Apply(cfg, s, Leave(c));
    LeavePool(cfg, s, c);
    if s'.pool.None? {
      LeaveLast(cfg, s, c);
    } else {
      StatusStays(s, s', c);
      PendingStays(s, s', c);
    }
    RetiredStay(s, s', c);
  }

  /** Without a main caller and without waiting callers there is no batch. */
  lemma EmptyBatch(s: State)
    requires ChannelsOk(s) && Current(s) && Mains(s) == {} && forall ch: nat :: Waiters(s, ch) == {}
    ensures Cur(s).status.None? && Cur(s).pendingStatus.None?
  {
    ElemsEmpty(Cur(s).items);
    ElemsEmpty(Cur(s).pending);
  }

  lemma NothingLeft(s: State)
    requires Active(s) == {}
    ensures Mains(s) == {} && forall ch: nat :: Waiters(s, ch) == {}
  {
    assert Mains(s) <= Active(s);
    forall ch: nat ensures Waiters(s, ch) == {} {
      assert Waiters(s, ch) <= Active(s);
    }
  }

  lemma AssignKeeps(cfg: Config, s: State, c: nat)
    requires Inv(cfg, s) && Enabled(cfg, s, Assign(c))
    ensures Inv(cfg, Apply(cfg, s, Assign(c)))
  {
    hide PoolOk, ChannelsOk, Apply;
    if s.merges[s.callers[c].m].committed {
      AssignPendingKeeps(cfg, s, c);
    } else {
      AssignItemKeeps(cfg, s, c);
    }
  }

  lemma MainStepKeeps(cfg: Config, s: State, step: Step)
    requires Inv(cfg, s) && Enabled(cfg, s, step)
    requires step.Prepare? || step.Commit? || step.Resolve? || step.Push? || step.Delete?
    ensures Inv(cfg, Apply(cfg, s, step))
  {
    hide PoolOk, ChannelsOk, Updated;
    MainIsCurrent(cfg, s, step.c);
    MainAdvances(cfg, s, Apply(cfg, s, step), step.c);
  }

  lemma StepKeepsInv(cfg: Config, s: State, step: Step)
    requires Inv(cfg, s) && Enabled(cfg, s, step)
    ensures Inv(cfg, Apply(cfg, s, step))
  {
    hide Enabled, Apply, PoolOk, ChannelsOk;
    match step
    case Get(c) => GetKeeps(cfg, s, c);
    case Assign(c) => AssignKeeps(cfg, s, c);
    case Receive(c) => ReceiveKeeps(cfg, s, c);
    case Notify(c) => NotifyKeeps(cfg, s, c);
    case Move(c) => MoveKeeps(cfg, s, c);
    case Leave(c) => LeaveKeeps(cfg, s, c);
    case _ => MainStepKeeps(cfg, s, step);
  }

  lemma {:induction false} RunKeepsInv(cfg: Config, states: seq<State>, steps: seq<Step>, i: nat)
    requires IsRun(cfg, states, steps) && i < |states|
    ensures Inv(cfg, states[i])
  {
    if i == 0 {
      InitInv(cfg);
    } else {
      RunKeepsInv(cfg, states, steps, i - 1);
      assert Enabled(cfg, states[i - 1], steps[i - 1]);
      StepKeepsInv(cfg, states[i - 1], steps[i - 1]);
    }
  }
}
