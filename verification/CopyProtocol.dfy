/**
 The concurrent graph copy as a state machine.  A state holds every goroutine (task) and every call of
 syncutil.Go (group), the claim tracker, the done channels, the free permits of the limiter and the
 destination.  A step is one atomic action of one goroutine, a fault of a storage call or hook, or a
 context cancellation, so a run is one interleaving.
 */
module CopyProtocol {
  import opened Descriptors
  import opened Reachability

  /** What a goroutine was started for: copying a node, or copying the graph below one of several roots. */
  datatype Job = Dispatch(node: Key) | Copy(node: Key)

  datatype Outcome = Nil | Failed | NotCommitted

  datatype Pc =
    | Entered                 // region started, function not run yet
    | Checking                // claimed, about to ask the destination
    | Finding                 // absent from the destination, about to find successors
    | InGo                    // inside the nested syncutil.Go
    | Awaiting(i: nat)        // the done channels of the first i successors were closed
    | Restarting              // about to start the region again
    | Copying                 // about to copy or mount the node
    | Closing                 // succeeded, about to close the done channel
    | Ending(out: Outcome)    // returned, region not ended yet
    | Returned(out: Outcome)

  /** `slot` is its position in its group, `child` the group it opened. */
  datatype Task = Task(job: Job, group: nat, slot: nat, child: Option<nat>, pc: Pc, holding: bool)

  datatype Status = Running | Finished(ok: bool)

  datatype Group = Group(owner: Option<nat>, items: seq<Job>, members: seq<nat>, cancelled: bool, status: Status)

  /** `closes` and `pushes` log the closed done channels and the stored nodes, in order. */
  datatype State = State(
    tasks: seq<Task>,
    groups: seq<Group>,
    claimed: map<Key, nat>,
    closes: seq<Key>,
    pushes: seq<Key>,
    dst: set<Key>,
    permits: nat)

  /** `source` lists the successors behind a key; the content of a key never changes. */
  datatype Config = Config(source: Key -> seq<Descriptor>, jobs: seq<Job>, limit: nat, dst0: set<Key>)

  function Succ(cfg: Config, k: Key): seq<Key> {
    Keys(NonForeign(cfg.source(k)))
  }

  function Edges(cfg: Config): Graph<Key> {
    k => Succ(cfg, k)
  }

  function Init(cfg: Config): State {
    State([], [Group(None, cfg.jobs, [], false, Running)], map[], [], [], cfg.dst0, cfg.limit)
  }

  datatype Answer = Present | Absent | Fault

  datatype Step =
    | Begin(t: nat)                               // a Dispatch task ends its region and calls copyGraph
    | Claim(t: nat)
    | Check(t: nat, answer: Answer)
    | Find(t: nat, ok: bool)
    | Spawn(g: nat)
    | Abort(g: nat)                               // a cancelled Start makes Go return without waiting
    | Join(g: nat)
    | AwaitNext(t: nat)
    | AwaitAll(t: nat)
    | AwaitCancelled(t: nat)
    | Restart(t: nat)
    | RestartCancelled(t: nat)
    | Push(t: nat, stored: bool, ok: bool)        // copyNode or mountOrCopyNode
    | Close(t: nat)
    | End(t: nat)
    | Cancel(g: nat)

  predicate At(s: State, t: nat, pc: Pc) {
    t < |s.tasks| && s.tasks[t].pc == pc
  }

  predicate CopyAt(s: State, t: nat, pc: Pc) {
    At(s, t, pc) && s.tasks[t].job.Copy?
  }

  predicate IsAwaiting(s: State, t: nat) {
    t < |s.tasks| && s.tasks[t].pc.Awaiting? && s.tasks[t].job.Copy?
  }

  predicate ContextDone(s: State, t: nat) {
    t < |s.tasks| && s.tasks[t].group < |s.groups| && s.groups[s.tasks[t].group].cancelled
  }

  predicate OpenGroupAt(s: State, g: nat) {
    && g < |s.groups| && s.groups[g].status.Running?
    && (s.groups[g].owner.Some? ==> s.groups[g].owner.value < |s.tasks|)
  }

  predicate MembersReturned(s: State, g: nat)
    requires g < |s.groups|
  {
    forall i :: 0 <= i < |s.groups[g].members| ==>
      s.groups[g].members[i] < |s.tasks| && s.tasks[s.groups[g].members[i]].pc.Returned?
  }

  predicate MembersNil(s: State, g: nat)
    requires g < |s.groups|
  {
    forall i :: 0 <= i < |s.groups[g].members| ==> At(s, s.groups[g].members[i], Returned(Nil))
  }

  predicate Enabled(cfg: Config, s: State, step: Step) {
    match step
    case Begin(t) => At(s, t, Entered) && s.tasks[t].job.Dispatch?
    case Claim(t) => CopyAt(s, t, Entered)
    case Check(t, answer) =>
      && CopyAt(s, t, Checking)
      && (answer.Present? ==> s.tasks[t].job.node in s.dst)
      && (answer.Absent? ==> s.tasks[t].job.node !in s.dst)
    case Find(t, _) => CopyAt(s, t, Finding)
    case Spawn(g) => OpenGroupAt(s, g) && |s.groups[g].members| < |s.groups[g].items| && s.permits > 0
    case Abort(g) => OpenGroupAt(s, g) && |s.groups[g].members| < |s.groups[g].items| && s.groups[g].cancelled
    case Join(g) => OpenGroupAt(s, g) && |s.groups[g].members| == |s.groups[g].items| && MembersReturned(s, g)
    case AwaitNext(t) =>
      && IsAwaiting(s, t)
      && s.tasks[t].pc.i < |Succ(cfg, s.tasks[t].job.node)|
      && var next := Succ(cfg, s.tasks[t].job.node)[s.tasks[t].pc.i];
      (next in s.claimed ==> next in s.closes)
    case AwaitAll(t) => IsAwaiting(s, t) && s.tasks[t].pc.i == |Succ(cfg, s.tasks[t].job.node)|
    case AwaitCancelled(t) => IsAwaiting(s, t) && ContextDone(s, t)
    case Restart(t) => At(s, t, Restarting) && s.permits > 0
    case RestartCancelled(t) => At(s, t, Restarting) && ContextDone(s, t)
    case Push(t, stored, ok) => CopyAt(s, t, Copying) && (ok ==> stored)
    case Close(t) => CopyAt(s, t, Closing)
    case End(t) => t < |s.tasks| && s.tasks[t].pc.Ending?
    case Cancel(g) =>
      && g < |s.groups| && !s.groups[g].cancelled
      && (|| g == 0    // the caller's context
          || (exists i :: 0 <= i < |s.groups[g].members| && HasFailed(s, s.groups[g].members[i]))
          || (s.groups[g].owner.Some? && ContextDone(s, s.groups[g].owner.value)))
  }

  predicate HasFailed(s: State, t: nat) {
    t < |s.tasks| && s.tasks[t].pc.Returned? && s.tasks[t].pc.out != Nil
  }

  function Move(s: State, t: nat, pc: Pc): State
    requires t < |s.tasks|
  {
    s.(tasks := s.tasks[t := s.tasks[t].(pc := pc)])
  }

  /** region.End: gives the permit back unless the region has ended already. */
  function Release(s: State, t: nat): State
    requires t < |s.tasks|
  {
    if s.tasks[t].holding then
      s.(tasks := s.tasks[t := s.tasks[t].(holding := false)], permits := s.permits + 1)
    else s
  }

  /** region.Start, once a permit is free. */
  function Acquire(s: State, t: nat): State
    requires t < |s.tasks| && s.permits > 0
  {
    s.(tasks := s.tasks[t := s.tasks[t].(holding := true)], permits := s.permits - 1)
  }

  function ChildItems(cfg: Config, job: Job): seq<Job> {
    match job
    case Dispatch(root) => [Copy(root)]
    case Copy(k) => CopyAll(Succ(cfg, k))
  }

  function CopyAll(ks: seq<Key>): (js: seq<Job>)
    ensures |js| == |ks| && forall i :: 0 <= i < |ks| ==> js[i] == Copy(ks[i])
  {
    seq(|ks|, i requires 0 <= i < |ks| => Copy(ks[i]))
  }

  /** Ends the region and enters a nested syncutil.Go. */
  function EnterGo(cfg: Config, s: State, t: nat): State
    requires t < |s.tasks|
  {
    var s1 := Release(s, t);
    s1.(tasks := s1.tasks[t := s1.tasks[t].(pc := InGo, child := Some(|s.groups|))],
        groups := s1.groups + [Group(Some(t), ChildItems(cfg, s.tasks[t].job), [], false, Running)])
  }

  /** syncutil.Go returns: the caller goes on if it returned nil and gives up otherwise. */
  function LeaveGo(s: State, g: nat, ok: bool): State
    requires OpenGroupAt(s, g)
  {
    var s1 := s.(groups := s.groups[g := s.groups[g].(status := Finished(ok))]);
    match s.groups[g].owner
    case None => s1
    case Some(t) => Move(s1, t, if !ok then Ending(Failed) else if s.tasks[t].job.Dispatch? then Restarting else Awaiting(0))
  }

  function Apply(cfg: Config, s: State, step: Step): State
    requires Enabled(cfg, s, step)
  {
    match step
    case Begin(t) => EnterGo(cfg, s, t)
    case Claim(t) =>
      var k := s.tasks[t].job.node;
      if k in s.claimed then Move(s, t, Ending(Nil))
      else Move(s, t, Checking).(claimed := s.claimed[k := t])
    case Check(t, answer) => Move(s, t, if answer.Present? then Closing else if answer.Absent? then Finding else Ending(Failed))
    case Find(t, ok) =>
      if !ok then Move(s, t, Ending(Failed))
      else if Succ(cfg, s.tasks[t].job.node) == [] then Move(s, t, Copying)
      else EnterGo(cfg, s, t)
    case Spawn(g) =>
      var group := s.groups[g];
      var slot := |group.members|;
      s.(tasks := s.tasks + [Task(group.items[slot], g, slot, None, Entered, true)],
         groups := s.groups[g := group.(members := group.members + [|s.tasks|])],
         permits := s.permits - 1)
    case Abort(g) => LeaveGo(s, g, false)
    case Join(g) => LeaveGo(s, g, MembersNil(s, g))
    case AwaitNext(t) =>
      var i := s.tasks[t].pc.i;
      var next := Succ(cfg, s.tasks[t].job.node)[i];
      if next in s.claimed then Move(s, t, Awaiting(i + 1))
      else Move(s, t, Ending(NotCommitted)).(claimed := s.claimed[next := t])
    case AwaitAll(t) => Move(s, t, Restarting)
    case AwaitCancelled(t) => Move(s, t, Ending(Failed))
    case Restart(t) => Move(Acquire(s, t), t, if s.tasks[t].job.Dispatch? then Ending(Nil) else Copying)
    case RestartCancelled(t) => Move(s, t, Ending(Failed))
    case Push(t, stored, ok) =>
      var s1 := Move(s, t, if ok then Closing else Ending(Failed));
      var k := s.tasks[t].job.node;
      if stored then s1.(dst := s.dst + {k}, pushes := s.pushes + [k]) else s1
    case Close(t) => Move(s, t, Ending(Nil)).(closes := s.closes + [s.tasks[t].job.node])
    case End(t) => Move(Release(s, t), t, Returned(s.tasks[t].pc.out))
    case Cancel(g) => s.(groups := s.groups[g := s.groups[g].(cancelled := true)])
  }

  /** A run: the states passed through and the steps between them. */
  ghost predicate IsRun(cfg: Config, states: seq<State>, steps: seq<Step>) {
    && |states| == |steps| + 1
    && states[0] == Init(cfg)
    && forall i :: 0 <= i < |steps| ==> Enabled(cfg, states[i], steps[i]) && states[i + 1] == Apply(cfg, states[i], steps[i])
  }

  /** Neither a storage call nor a hook fails and no context is cancelled. */
  predicate FaultFree(step: Step) {
    match step
    case Check(_, answer) => !answer.Fault?
    case Find(_, ok) => ok
    case Push(_, _, ok) => ok
    case Cancel(_) => false
    case _ => true
  }
}
