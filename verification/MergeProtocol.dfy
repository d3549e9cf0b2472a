/**
 Concurrent updates of one referrers index as a state machine: the pool of merge objects, the merge protocol with
 its status channels, and the read-modify-write of the tagged index in the registry.  A step is one critical section,
 one channel operation or one registry request of one caller, so a run is one interleaving of the callers.
 */
module MergeProtocol {
  import opened Descriptors
  import opened Referrers

  /** The index behind a digest; digests are injective, so an index stands for its digest. */
  datatype Index = Index(manifests: seq<Descriptor>, rest: string)

  function GenerateIndex(manifests: seq<Descriptor>): Index {
    Index(manifests, "generated")
  }

  datatype Prepared = PrepareFailed | Old(index: Option<Index>)

  datatype Phase =
    | Idle
    | Got                                             // has the merge object from the pool
    | Waiting(ch: nat)                                // assigned, waiting on a status channel
    | Preparing                                       // received the main token
    | Committing(prep: Prepared)
    | Resolving(prev: Option<Index>)
    | Pushing(prev: Option<Index>, next: seq<Descriptor>)
    | Deleting(oldIndex: Index, applied: bool)        // about to delete the dangling index
    | Notifying(ok: bool, remaining: nat)
    | Moving(ok: bool)                                // about to stage the pending items
    | Leaving(ok: bool)                               // about to give the merge object back
    | Returned(ok: bool)

  /** A caller with its merge object and, once assigned, the status channel of its batch. */
  datatype Caller = Caller(phase: Phase, m: nat, batch: nat)

  datatype Message = Main | Error

  /** A channel of capacity one. */
  datatype Channel = Channel(buffer: seq<Message>, closed: bool)

  datatype Merge = Merge(committed: bool, items: seq<nat>, status: Option<nat>, pending: seq<nat>, pendingStatus: Option<nat>)

  datatype PoolItem = PoolItem(m: nat, refCount: nat)

  /** `log` records the callers whose change took effect in the registry, in order, and `batches` the same by batch. */
  datatype State = State(
    callers: seq<Caller>,
    merges: seq<Merge>,
    chans: seq<Channel>,
    pool: Option<PoolItem>,
    tag: Option<Index>,
    log: seq<nat>,
    batches: seq<seq<nat>>)

  datatype Config = Config(changes: seq<Change>, skipGC: bool, tag0: Option<Index>)

  function Init(cfg: Config): State {
    State(seq(|cfg.changes|, _ => Caller(Idle, 0, 0)), [], [], None, cfg.tag0, [], [])
  }

  function ChangesOf(cfg: Config, cs: seq<nat>): (changes: seq<Change>)
    requires forall i :: 0 <= i < |cs| ==> cs[i] < |cfg.changes|
    ensures |changes| == |cs| && forall i :: 0 <= i < |cs| ==> changes[i] == cfg.changes[cs[i]]
  {
    seq(|cs|, i requires 0 <= i < |cs| => cfg.changes[cs[i]])
  }

  function Manifests(index: Option<Index>): seq<Descriptor> {
    match index case Some(i) => i.manifests case None => []
  }

  /** What applyReferrerChanges returns: None for "no referrer update". */
  ghost function Updated(referrers: seq<Descriptor>, changes: seq<Change>): Option<seq<Descriptor>> {
    if Clean(referrers) == referrers && ApplyKeys(KeySet(referrers), changes) == KeySet(referrers) then None
    else Some(NonEmpty(ApplyAll(Clean(referrers), changes)))
  }

  datatype Step =
    | Get(c: nat)
    | Assign(c: nat)
    | Receive(c: nat)
    | Prepare(c: nat, ok: bool)
    | Commit(c: nat)
    | Resolve(c: nat)
    | Push(c: nat, stored: bool, ok: bool)
    | Delete(c: nat, effective: bool, ok: bool)
    | Notify(c: nat)
    | Move(c: nat)
    | Leave(c: nat)

  /** A registry request fails. */
  predicate IsFault(step: Step) {
    match step
    case Prepare(_, ok) => !ok
    case Push(_, _, ok) => !ok
    case Delete(_, _, ok) => !ok
    case _ => false
  }

  predicate InUse(s: State, c: nat) {
    c < |s.callers| && s.callers[c].m < |s.merges|
  }

  /** The merge object of a caller in the middle of a batch has a status channel and known items. */
  predicate HasBatch(cfg: Config, s: State, c: nat) {
    && InUse(s, c)
    && s.merges[s.callers[c].m].status.Some?
    && s.merges[s.callers[c].m].status.value < |s.chans|
    && forall i :: 0 <= i < |s.merges[s.callers[c].m].items| ==> s.merges[s.callers[c].m].items[i] < |cfg.changes|
  }

  predicate Enabled(cfg: Config, s: State, step: Step) {
    var c := step.c;
    && c < |s.callers|
    && var phase := s.callers[c].phase;
    match step
    case Get(_) => phase.Idle?
    case Assign(_) => phase.Got? && InUse(s, c)
    case Receive(_) => phase.Waiting? && phase.ch < |s.chans| && (s.chans[phase.ch].buffer != [] || s.chans[phase.ch].closed)
    case Prepare(_, _) => phase.Preparing?
    case Commit(_) => phase.Committing? && InUse(s, c)
    case Resolve(_) => phase.Resolving? && HasBatch(cfg, s, c)
    case Push(_, stored, ok) => phase.Pushing? && HasBatch(cfg, s, c) && (ok ==> stored)
    case Delete(_, effective, ok) => phase.Deleting? && HasBatch(cfg, s, c) && (ok ==> effective)
    case Notify(_) => phase.Notifying? && HasBatch(cfg, s, c) && (!phase.ok && phase.remaining > 0 ==> s.chans[s.merges[s.callers[c].m].status.value].buffer == [])
    case Move(_) => phase.Moving? && InUse(s, c) && CanStage(s, s.merges[s.callers[c].m].pendingStatus)
    case Leave(_) => phase.Leaving? && s.pool.Some? && s.pool.value.refCount > 0
  }

  /** Staging sends the main token, which needs room in the channel. */
  predicate CanStage(s: State, ch: Option<nat>) {
    ch.Some? ==> ch.value < |s.chans| && s.chans[ch.value].buffer == []
  }

  function Set(s: State, c: nat, phase: Phase): State
    requires c < |s.callers|
  {
    s.(callers := s.callers[c := s.callers[c].(phase := phase)])
  }

  /** Pool.Get: creates the item on first use and counts the user. */
  function ApplyGet(s: State, c: nat): State
    requires c < |s.callers|
  {
    match s.pool
    case Some(item) =>
      s.(callers := s.callers[c := Caller(Got, item.m, 0)], pool := Some(PoolItem(item.m, item.refCount + 1)))
    case None =>
      s.(callers := s.callers[c := Caller(Got, |s.merges|, 0)],
         merges := s.merges + [Merge(false, [], None, [], None)],
         pool := Some(PoolItem(|s.merges|, 1)))
  }

  /** The function returned by Pool.Get. */
  function ApplyLeave(s: State, c: nat): State
    requires c < |s.callers| && s.callers[c].phase.Leaving? && s.pool.Some? && s.pool.value.refCount > 0
  {
    var item := s.pool.value;
    Set(s, c, Returned(s.callers[c].phase.ok)).(pool :=
      if item.refCount - 1 == 0 then None else Some(PoolItem(item.m, item.refCount - 1)))
  }

  function Join(s: State, c: nat, ch: nat): State
    requires c < |s.callers|
  {
    s.(callers := s.callers[c := s.callers[c].(phase := Waiting(ch), batch := ch)])
  }

  function ApplyAssign(s: State, c: nat): State
    requires InUse(s, c)
  {
    var m := s.callers[c].m;
    var merge := s.merges[m];
    var newCh := |s.chans|;
    if merge.committed then
      match merge.pendingStatus
      case Some(ch) => Join(s.(merges := s.merges[m := merge.(pending := merge.pending + [c])]), c, ch)
      case None =>
        Join(s.(merges := s.merges[m := merge.(pending := merge.pending + [c], pendingStatus := Some(newCh))],
                chans := s.chans + [Channel([], false)]), c, newCh)
    else
      match merge.status
      case Some(ch) => Join(s.(merges := s.merges[m := merge.(items := merge.items + [c])]), c, ch)
      case None =>
        Join(s.(merges := s.merges[m := merge.(items := merge.items + [c], status := Some(newCh))],
                chans := s.chans + [Channel([Main], false)]), c, newCh)
  }

  function ApplyReceive(s: State, c: nat): State
    requires c < |s.callers| && s.callers[c].phase.Waiting? && s.callers[c].phase.ch < |s.chans|
  {
    var ch := s.callers[c].phase.ch;
    var chan := s.chans[ch];
    if chan.buffer == [] then Set(s, c, Leaving(true))
    else Set(s.(chans := s.chans[ch := chan.(buffer := chan.buffer[1..])]), c,
             if chan.buffer[0].Main? then Preparing else Leaving(false))
  }

  /** commit: closes the assignment window; a failed prepare skips resolve. */
  function ApplyCommit(s: State, c: nat): State
    requires InUse(s, c) && s.callers[c].phase.Committing?
  {
    var m := s.callers[c].m;
    var s1 := s.(merges := s.merges[m := s.merges[m].(committed := true)]);
    match s.callers[c].phase.prep
    case PrepareFailed => Fail(s1, c)
    case Old(index) => Set(s1, c, Resolving(index))
  }

  ghost function ApplyResolve(cfg: Config, s: State, c: nat): State
    requires HasBatch(cfg, s, c) && s.callers[c].phase.Resolving?
  {
    var items := s.merges[s.callers[c].m].items;
    var prev := s.callers[c].phase.prev;
    match Updated(Manifests(prev), ChangesOf(cfg, items))
    case None => Set(s, c, Notifying(true, 0)).(log := s.log + items, batches := s.batches + [items])
    case Some(next) =>
      if |next| > 0 || cfg.skipGC then Set(s, c, Pushing(prev, next))
      else if prev.None? then Set(s, c, Notifying(true, 0)).(log := s.log + items, batches := s.batches + [items])
      else Set(s, c, Deleting(prev.value, false))
  }

  function Fail(s: State, c: nat): State
    requires InUse(s, c)
  {
    Set(s, c, Notifying(false, if s.merges[s.callers[c].m].items == [] then 0 else |s.merges[s.callers[c].m].items| - 1))
  }

  function ApplyPush(cfg: Config, s: State, c: nat, stored: bool, ok: bool): State
    requires HasBatch(cfg, s, c) && s.callers[c].phase.Pushing?
  {
    var prev := s.callers[c].phase.prev;
    var items := s.merges[s.callers[c].m].items;
    var s1 := if !stored then s else
      s.(tag := Some(GenerateIndex(s.callers[c].phase.next)), log := s.log + items, batches := s.batches + [items]);
    if !ok then Fail(s1, c)
    else if cfg.skipGC || prev.None? then Set(s1, c, Notifying(true, 0))
    else Set(s1, c, Deleting(prev.value, true))
  }

  /** Deleting an index by its digest also drops a tag that still points to it. */
  function ApplyDelete(cfg: Config, s: State, c: nat, effective: bool, ok: bool): State
    requires HasBatch(cfg, s, c) && s.callers[c].phase.Deleting?
  {
    var phase := s.callers[c].phase;
    var items := s.merges[s.callers[c].m].items;
    var s1 := if !effective then s else
      s.(tag := if s.tag == Some(phase.oldIndex) then None else s.tag,
         log := if phase.applied then s.log else s.log + items,
         batches := if phase.applied then s.batches else s.batches + [items]);
    if ok then Set(s1, c, Notifying(true, 0)) else Fail(s1, c)
  }

  /** complete: closes the channel on success, sends the error to each other caller otherwise. */
  function ApplyNotify(cfg: Config, s: State, c: nat): State
    requires HasBatch(cfg, s, c) && s.callers[c].phase.Notifying?
  {
    var phase := s.callers[c].phase;
    var ch := s.merges[s.callers[c].m].status.value;
    if phase.ok then Set(s.(chans := s.chans[ch := s.chans[ch].(closed := true)]), c, Moving(true))
    else if phase.remaining == 0 then Set(s, c, Moving(false))
    else Set(s.(chans := s.chans[ch := s.chans[ch].(buffer := [Error])]), c, Notifying(false, phase.remaining - 1))
  }

  /** complete, under the lock: the pending items become the next batch. */
  function ApplyMove(s: State, c: nat): State
    requires InUse(s, c) && s.callers[c].phase.Moving? && CanStage(s, s.merges[s.callers[c].m].pendingStatus)
  {
    var m := s.callers[c].m;
    var merge := s.merges[m];
    var s1 := s.(merges := s.merges[m := Merge(false, merge.pending, merge.pendingStatus, [], None)]);
    var s2 := match merge.pendingStatus
      case Some(ch) => s1.(chans := s.chans[ch := s.chans[ch].(buffer := [Main])])
      case None => s1;
    Set(s2, c, Leaving(s.callers[c].phase.ok))
  }

  ghost function Apply(cfg: Config, s: State, step: Step): State
    requires Enabled(cfg, s, step)
  {
    var c := step.c;
    match step
    case Get(_) => ApplyGet(s, c)
    case Assign(_) => ApplyAssign(s, c)
    case Receive(_) => ApplyReceive(s, c)
    case Prepare(_, ok) => Set(s, c, Committing(if ok then Old(s.tag) else PrepareFailed))
    case Commit(_) => ApplyCommit(s, c)
    case Resolve(_) => ApplyResolve(cfg, s, c)
    case Push(_, stored, ok) => ApplyPush(cfg, s, c, stored, ok)
    case Delete(_, effective, ok) => ApplyDelete(cfg, s, c, effective, ok)
    case Notify(_) => ApplyNotify(cfg, s, c)
    case Move(_) => ApplyMove(s, c)
    case Leave(_) => ApplyLeave(s, c)
  }

  ghost predicate IsRun(cfg: Config, states: seq<State>, steps: seq<Step>) {
    && |states| == |steps| + 1
    && states[0] == Init(cfg)
    && forall i :: 0 <= i < |steps| ==> Enabled(cfg, states[i], steps[i]) && states[i + 1] == Apply(cfg, states[i], steps[i])
  }
}
