/** Every run of a graph copy is finite, and a fault-free one cannot get stuck before it has copied everything. */
module CopyProgress {
  import opened Descriptors
  import opened Reachability
  import opened CopyProtocol
  import opened CopySafety
  import opened CopyResults
  import opened Sums

  /** `nodes` lists at least the finitely many keys reachable from the requested nodes. */
  ghost predicate Covers(cfg: Config, nodes: seq<Key>) {
    forall k :: FromJobs(cfg, k) ==> k in nodes
  }

  // ---- Bounded runs: a potential that every step lowers ----

  function TaskWeight(cfg: Config, task: Task): nat {
    var n := |Succ(cfg, task.job.node)|;
    match task.pc
    case Entered => if task.job.Dispatch? then 20 else 3
    case Checking => 6 * n + 12
    case Finding => 6 * n + 11
    case InGo => if task.job.Dispatch? then 7 else n + 6
    case Awaiting(i) => (if i < n then n - i else 0) + 5
    case Restarting => 4
    case Copying => 3
    case Closing => 2
    case Ending(_) => 1
    case Returned(_) => 0
  }

  function GroupWeight(group: Group): nat {
    (if |group.members| < |group.items| then (if group.owner.None? then 21 else 4) * (|group.items| - |group.members|) else 0)
    + (if group.cancelled then 0 else 1) + (if group.status.Running? then 1 else 0)
  }

  function ClaimWeight(cfg: Config, claimed: map<Key, nat>, k: Key): nat {
    if k in claimed then 0 else 6 * |Succ(cfg, k)| + 13
  }

  function TaskWeights(cfg: Config, s: State): nat {
    Sum(s.tasks, task => TaskWeight(cfg, task))
  }

  function GroupWeights(s: State): nat {
    Sum(s.groups, group => GroupWeight(group))
  }

  function ClaimWeights(cfg: Config, nodes: seq<Key>, s: State): nat {
    Sum(nodes, k => ClaimWeight(cfg, s.claimed, k))
  }

  function Potential(cfg: Config, nodes: seq<Key>, s: State): nat {
    TaskWeights(cfg, s) + GroupWeights(s) + ClaimWeights(cfg, nodes, s)
  }

  lemma TaskChange(cfg: Config, s: State, s': State, t: nat)
    requires t < |s.tasks| && |s'.tasks| == |s.tasks| && s'.tasks == s.tasks[t := s'.tasks[t]]
    ensures TaskWeights(cfg, s') + TaskWeight(cfg, s.tasks[t]) == TaskWeights(cfg, s) + TaskWeight(cfg, s'.tasks[t])
  {
    SumUpdate(s.tasks, t, s'.tasks[t], task => TaskWeight(cfg, task));
  }

  lemma GroupChange(s: State, s': State, g: nat)
    requires g < |s.groups| && |s'.groups| == |s.groups| && s'.groups == s.groups[g := s'.groups[g]]
    ensures GroupWeights(s') + GroupWeight(s.groups[g]) == GroupWeights(s) + GroupWeight(s'.groups[g])
  {
    SumUpdate(s.groups, g, s'.groups[g], group => GroupWeight(group));
  }

  lemma ClaimsOnlyGrow(cfg: Config, nodes: seq<Key>, s: State, s': State)
    requires s.claimed.Keys <= s'.claimed.Keys
    ensures ClaimWeights(cfg, nodes, s') <= ClaimWeights(cfg, nodes, s)
  {
    SumLess(nodes, k => ClaimWeight(cfg, s.claimed, k), k => ClaimWeight(cfg, s'.claimed, k));
  }

  lemma ClaimPays(cfg: Config, nodes: seq<Key>, s: State, s': State, k: Key)
    requires k in nodes && k !in s.claimed && s'.claimed.Keys == s.claimed.Keys + {k}
    ensures ClaimWeights(cfg, nodes, s') + 6 * |Succ(cfg, k)| + 13 <= ClaimWeights(cfg, nodes, s)
  {
    SumDrops(nodes, k => ClaimWeight(cfg, s.claimed, k), k => ClaimWeight(cfg, s'.claimed, k), k);
  }

  lemma EnterGoLowers(cfg: Config, nodes: seq<Key>, s: State, t: nat)
    requires CanEnterGo(s, t) && s.tasks[t].holding && (s.tasks[t].pc.Finding? ==> s.tasks[t].job.Copy?)
    ensures Potential(cfg, nodes, EnterGo(cfg, s, t)) < Potential(cfg, nodes, s)
  {
    var s' := EnterGo(cfg, s, t);
    assert s'.tasks == s.tasks[t := s'.tasks[t]];
    TaskChange(cfg, s, s', t);
    SumAppend(s.groups, s'.groups[|s.groups|], group => GroupWeight(group));
    assert GroupWeights(s') == GroupWeights(s) + GroupWeight(s'.groups[|s.groups|]);
    ClaimsOnlyGrow(cfg, nodes, s, s');
  }

  lemma SpawnLowers(cfg: Config, nodes: seq<Key>, s: State, g: nat)
    requires Inv(cfg, s) && Enabled(cfg, s, Spawn(g))
    ensures Potential(cfg, nodes, Apply(cfg, s, Spawn(g))) < Potential(cfg, nodes, s)
  {
    var s' := Apply(cfg, s, Spawn(g));
    assert GroupOk(cfg, s, g);
    SumAppend(s.tasks, s'.tasks[|s.tasks|], task => TaskWeight(cfg, task));
    GroupChange(s, s', g);
  }

  lemma LeaveGoLowers(cfg: Config, nodes: seq<Key>, s: State, g: nat, ok: bool)
    requires Inv(cfg, s) && OpenGroupAt(s, g)
    ensures Potential(cfg, nodes, LeaveGo(s, g, ok)) < Potential(cfg, nodes, s)
  {
    var s' := LeaveGo(s, g, ok);
    assert GroupOk(cfg, s, g);
    GroupChange(s, s', g);
    if s.groups[g].owner.Some? {
      TaskChange(cfg, s, s', s.groups[g].owner.value);
    }
  }

  ghost predicate ChangesOneTask(cfg: Config, s: State, step: Step) {
    && Enabled(cfg, s, step)
    && !step.Begin? && !step.Spawn? && !step.Abort? && !step.Join? && !step.Cancel?
    && (step.Find? && step.ok ==> Succ(cfg, s.tasks[step.t].job.node) == [])
  }

  lemma ChangeLowersWeight(cfg: Config, s: State, step: Step)
    requires ChangesOneTask(cfg, s, step)
    ensures step.t < |s.tasks|
    ensures var s' := Apply(cfg, s, step);
            && |s'.tasks| == |s.tasks| && s'.tasks == s.tasks[step.t := s'.tasks[step.t]] && s'.groups == s.groups
            && TaskWeight(cfg, s'.tasks[step.t]) < TaskWeight(cfg, s.tasks[step.t])
                 + if step.Claim? && s.tasks[step.t].job.node !in s.claimed then 6 * |Succ(cfg, s.tasks[step.t].job.node)| + 13 else 0
  {
  }

  lemma ChangeLowers(cfg: Config, nodes: seq<Key>, s: State, step: Step)
    requires Covers(cfg, nodes) && Inv(cfg, s) && InScope(cfg, s) && ChangesOneTask(cfg, s, step)
    ensures Potential(cfg, nodes, Apply(cfg, s, step)) < Potential(cfg, nodes, s)
  {
    var s' := Apply(cfg, s, step);
    ChangeLowersWeight(cfg, s, step);
    TaskChange(cfg, s, s', step.t);
    TaskInScope(cfg, s, step.t);
    if step.Claim? && s.tasks[step.t].job.node !in s.claimed {
      ClaimPays(cfg, nodes, s, s', s.tasks[step.t].job.node);
    } else {
      ClaimsOnlyGrow(cfg, nodes, s, s');
    }
  }

  /** Every step, faults and cancellations included, lowers the potential. */
  lemma StepLowers(cfg: Config, nodes: seq<Key>, s: State, step: Step)
    requires Covers(cfg, nodes) && Inv(cfg, s) && InScope(cfg, s) && Enabled(cfg, s, step)
    ensures Potential(cfg, nodes, Apply(cfg, s, step)) < Potential(cfg, nodes, s)
  {
    if step.Spawn? {
      SpawnLowers(cfg, nodes, s, step.g);
    } else if step.Abort? {
      LeaveGoLowers(cfg, nodes, s, step.g, false);
    } else if step.Join? {
      LeaveGoLowers(cfg, nodes, s, step.g, MembersNil(s, step.g));
    } else if step.Cancel? {
      GroupChange(s, Apply(cfg, s, step), step.g);
    } else if ChangesOneTask(cfg, s, step) {
      ChangeLowers(cfg, nodes, s, step);
    } else {
      assert TaskOk(cfg, s, step.t);
      EnterGoLowers(cfg, nodes, s, step.t);
    }
  }

  /** No run is longer than the potential of the initial state, whatever fails and however the goroutines interleave. */
  lemma {:induction false} RunsAreBounded(cfg: Config, nodes: seq<Key>, states: seq<State>, steps: seq<Step>, i: nat)
    requires Covers(cfg, nodes) && IsRun(cfg, states, steps) && i < |states|
    ensures i + Potential(cfg, nodes, states[i]) <= Potential(cfg, nodes, Init(cfg))
  {
    if i > 0 {
      RunsAreBounded(cfg, nodes, states, steps, i - 1);
      RunKeepsInv(cfg, states, steps, i - 1);
      RunKeepsScope(cfg, states, steps, i - 1);
      assert Enabled(cfg, states[i - 1], steps[i - 1]);
      StepLowers(cfg, nodes, states[i - 1], steps[i - 1]);
    }
  }

  // ---- Deadlock freedom ----

  ghost predicate NobodyFailed(s: State) {
    forall t: nat :: t < |s.tasks| && (s.tasks[t].pc.Ending? || s.tasks[t].pc.Returned?) ==> s.tasks[t].pc.out == Nil
  }

  /** Nothing has failed and nothing has been cancelled so far. */
  ghost predicate Clean(s: State) {
    && NobodyFailed(s)
    && (forall g: nat :: g < |s.groups| ==> !s.groups[g].cancelled && s.groups[g].status != Finished(false))
  }

  /** Joins and fault-free steps produce nil outcomes only. */
  lemma CleanJoin(cfg: Config, s: State, g: nat)
    requires Inv(cfg, s) && Clean(s) && Enabled(cfg, s, Join(g))
    ensures MembersNil(s, g)
  {
    forall i | 0 <= i < |s.groups[g].members| ensures At(s, s.groups[g].members[i], Returned(Nil)) {
    }
  }

  lemma CleanMember(cfg: Config, s: State, step: Step, t: nat)
    requires Inv(cfg, s) && Clean(s) && Enabled(cfg, s, step) && FaultFree(step)
    requires step.Begin? || step.Claim? || step.Check? || step.Find? || step.Push? || step.Spawn? || step.Abort? || step.Join? || step.Cancel?
    requires t < |Apply(cfg, s, step).tasks|
    ensures var pc := Apply(cfg, s, step).tasks[t].pc; pc.Ending? || pc.Returned? ==> pc.out == Nil
  {
    if step.Join? {
      CleanJoin(cfg, s, step.g);
    }
  }

  lemma CleanTask(cfg: Config, s: State, step: Step, t: nat)
    requires Inv(cfg, s) && Clean(s) && Enabled(cfg, s, step) && FaultFree(step)
    requires t < |Apply(cfg, s, step).tasks|
    ensures var pc := Apply(cfg, s, step).tasks[t].pc; pc.Ending? || pc.Returned? ==> pc.out == Nil
  {
    if step.Begin? || step.Claim? || step.Check? || step.Find? || step.Push? || step.Spawn? || step.Abort? || step.Join? || step.Cancel? {
      CleanMember(cfg, s, step, t);
    } else {
      assert TaskOk(cfg, s, step.t);
    }
  }

  lemma StepKeepsClean(cfg: Config, s: State, step: Step)
    requires Inv(cfg, s) && Clean(s) && Enabled(cfg, s, step) && FaultFree(step)
    ensures Clean(Apply(cfg, s, step))
  {
    var s' := Apply(cfg, s, step);
    forall t: nat | t < |s'.tasks| && (s'.tasks[t].pc.Ending? || s'.tasks[t].pc.Returned?)
      ensures s'.tasks[t].pc.out == Nil
    {
      CleanTask(cfg, s, step, t);
    }
    if step.Join? {
      CleanJoin(cfg, s, step.g);
    }
  }

  lemma {:induction false} RunKeepsClean(cfg: Config, states: seq<State>, steps: seq<Step>, i: nat)
    requires IsRun(cfg, states, steps) && i < |states|
    requires forall j :: 0 <= j < |steps| ==> FaultFree(steps[j])
    ensures Clean(states[i])
  {
    if i > 0 {
      RunKeepsClean(cfg, states, steps, i - 1);
      RunKeepsInv(cfg, states, steps, i - 1);
      assert Enabled(cfg, states[i - 1], steps[i - 1]);
      StepKeepsClean(cfg, states[i - 1], steps[i - 1]);
    }
  }

  ghost predicate CanStep(cfg: Config, s: State, step: Step) {
    Enabled(cfg, s, step) && FaultFree(step)
  }

  /** A task whose next step waits for nobody. */
  ghost predicate IsLocal(pc: Pc) {
    pc.Entered? || pc.Checking? || pc.Finding? || pc.Copying? || pc.Closing? || pc.Ending?
  }

  lemma LocalCanStep(cfg: Config, s: State, t: nat) returns (step: Step)
    requires Inv(cfg, s) && t < |s.tasks| && IsLocal(s.tasks[t].pc)
    ensures CanStep(cfg, s, step)
  {
    assert TaskOk(cfg, s, t);
    var task := s.tasks[t];
    step := match task.pc
      case Entered => if task.job.Dispatch? then Begin(t) else Claim(t)
      case Checking => Check(t, if task.job.node in s.dst then Present else Absent)
      case Finding => Find(t, true)
      case Copying => Push(t, true, true)
      case Closing => Close(t)
      case _ => End(t);
  }

  /** No task can step by itself, no region waits to restart and no item waits to be spawned. */
  ghost predicate Quiet(s: State) {
    && (forall t: nat :: t < |s.tasks| ==> !IsLocal(s.tasks[t].pc) && !s.tasks[t].pc.Restarting?)
    && (forall g: nat :: g < |s.groups| && s.groups[g].status.Running? ==> |s.groups[g].members| >= |s.groups[g].items|)
  }

  ghost function Scope(cfg: Config, nodes: seq<Key>): set<Key> {
    set k | k in nodes && FromJobs(cfg, k)
  }

  lemma ScopeClosed(cfg: Config, nodes: seq<Key>)
    requires Covers(cfg, nodes)
    ensures Closed(Edges(cfg), Scope(cfg, nodes))
  {
    forall a, b | a in Scope(cfg, nodes) && b in Edges(cfg)(a) ensures b in Scope(cfg, nodes) {
      var j: nat :| j < |cfg.jobs| && Reaches(Edges(cfg), cfg.jobs[j].node, a);
      ReachesStep(Edges(cfg), cfg.jobs[j].node, a, b);
    }
  }

  ghost function Rank(cfg: Config, nodes: seq<Key>, job: Job): nat {
    2 * |Below(Edges(cfg), Scope(cfg, nodes), job.node)| + if job.Dispatch? then 1 else 0
  }

  lemma ChildRanksLower(cfg: Config, nodes: seq<Key>, job: Job, child: Job)
    requires Covers(cfg, nodes) && Acyclic(Edges(cfg)) && FromJobs(cfg, job.node)
    requires child in ChildItems(cfg, job)
    ensures Rank(cfg, nodes, child) < Rank(cfg, nodes, job)
  {
    if job.Copy? {
      ScopeClosed(cfg, nodes);
      assert child.node in Edges(cfg)(job.node);
      BelowShrinks(Edges(cfg), Scope(cfg, nodes), job.node, child.node);
    }
  }

  /** The successor a task waits for is claimed by a task that has not returned. */
  lemma AwaitedIsAtWork(cfg: Config, s: State, t: nat)
    requires Inv(cfg, s) && NobodyFailed(s) && t < |s.tasks| && s.tasks[t].pc.Awaiting? && s.tasks[t].job.Copy?
    requires s.tasks[t].pc.i < |Succ(cfg, s.tasks[t].job.node)| && Succ(cfg, s.tasks[t].job.node)[s.tasks[t].pc.i] !in s.closes
    ensures var k := Succ(cfg, s.tasks[t].job.node)[s.tasks[t].pc.i];
            && Copy(k) in ChildItems(cfg, s.tasks[t].job)
            && k in s.claimed && s.claimed[k] < |s.tasks|
            && s.tasks[s.claimed[k]].job == Copy(k) && !s.tasks[s.claimed[k]].pc.Returned?
  {
    var k := Succ(cfg, s.tasks[t].job.node)[s.tasks[t].pc.i];
    assert TaskOk(cfg, s, t) && TaskOk(cfg, s, s.claimed[k]);
    assert ChildItems(cfg, s.tasks[t].job)[s.tasks[t].pc.i] == Copy(k);
  }

  /** A group that cannot be joined yet has a member at work. */
  lemma MemberAtWork(cfg: Config, s: State, t: nat) returns (u: nat)
    requires Inv(cfg, s) && t < |s.tasks| && s.tasks[t].pc.InGo? && s.tasks[t].child.Some?
    requires s.tasks[t].child.value < |s.groups| && !MembersReturned(s, s.tasks[t].child.value)
    ensures u < |s.tasks| && !s.tasks[u].pc.Returned? && s.tasks[u].job in ChildItems(cfg, s.tasks[t].job)
  {
    var g := s.tasks[t].child.value;
    assert TaskOk(cfg, s, t) && GroupOk(cfg, s, g);
    var i :| 0 <= i < |s.groups[g].members| && !s.tasks[s.groups[g].members[i]].pc.Returned?;
    u := s.groups[g].members[i];
  }

  /** In a quiet state, following what a waiting task waits for leads down the graph to a task that can go on. */
  lemma {:induction false} WaitingCanStep(cfg: Config, nodes: seq<Key>, s: State, t: nat) returns (step: Step)
    requires Covers(cfg, nodes) && Acyclic(Edges(cfg))
    requires Inv(cfg, s) && InScope(cfg, s) && NobodyFailed(s) && Quiet(s)
    requires t < |s.tasks| && !s.tasks[t].pc.Returned?
    ensures CanStep(cfg, s, step)
    decreases Rank(cfg, nodes, s.tasks[t].job)
  {
    assert TaskOk(cfg, s, t);
    TaskInScope(cfg, s, t);
    var job := s.tasks[t].job;
    if s.tasks[t].pc.InGo? {
      if MembersReturned(s, s.tasks[t].child.value) {
        assert GroupOk(cfg, s, s.tasks[t].child.value);
        step := Join(s.tasks[t].child.value);
      } else {
        var u := MemberAtWork(cfg, s, t);
        ChildRanksLower(cfg, nodes, job, s.tasks[u].job);
        step := WaitingCanStep(cfg, nodes, s, u);
      }
    } else {
      var succ := Succ(cfg, job.node);
      var i := s.tasks[t].pc.i;
      if i == |succ| {
        step := AwaitAll(t);
      } else if succ[i] in s.closes {
        step := AwaitNext(t);
      } else {
        AwaitedIsAtWork(cfg, s, t);
        ChildRanksLower(cfg, nodes, job, Copy(succ[i]));
        step := WaitingCanStep(cfg, nodes, s, s.claimed[succ[i]]);
      }
    }
  }

  lemma QuietHasPermits(cfg: Config, s: State)
    requires Inv(cfg, s) && forall t: nat :: t < |s.tasks| ==> !IsLocal(s.tasks[t].pc)
    ensures s.permits == cfg.limit
  {
    forall t: nat | t < |s.tasks| ensures !s.tasks[t].holding {
      assert TaskOk(cfg, s, t);
    }
    assert Holders(s.tasks) == {};
  }

  lemma SpawnCanStep(cfg: Config, s: State, g: nat) returns (step: Step)
    requires Inv(cfg, s) && s.permits > 0
    requires g < |s.groups| && s.groups[g].status.Running? && |s.groups[g].members| < |s.groups[g].items|
    ensures CanStep(cfg, s, step)
  {
    assert GroupOk(cfg, s, g);
    step := Spawn(g);
  }

  lemma QuietCanStep(cfg: Config, nodes: seq<Key>, s: State) returns (step: Step)
    requires Covers(cfg, nodes) && Acyclic(Edges(cfg))
    requires Inv(cfg, s) && InScope(cfg, s) && NobodyFailed(s) && Quiet(s)
    requires s.groups[0].status.Running?
    ensures CanStep(cfg, s, step)
  {
    assert GroupOk(cfg, s, 0);
    if MembersReturned(s, 0) {
      step := Join(0);
    } else {
      var i :| 0 <= i < |s.groups[0].members| && !s.tasks[s.groups[0].members[i]].pc.Returned?;
      step := WaitingCanStep(cfg, nodes, s, s.groups[0].members[i]);
    }
  }

  /** With at least one permit and no cycle, the copy can always go on until the outermost Go returns. */
  lemma NeverStuck(cfg: Config, nodes: seq<Key>, s: State) returns (step: Step)
    requires Covers(cfg, nodes) && Acyclic(Edges(cfg)) && cfg.limit >= 1
    requires Inv(cfg, s) && InScope(cfg, s) && Clean(s)
    requires s.groups[0].status.Running?
    ensures CanStep(cfg, s, step)
  {
    if t: nat :| t < |s.tasks| && IsLocal(s.tasks[t].pc) {
      step := LocalCanStep(cfg, s, t);
    } else {
      QuietHasPermits(cfg, s);
      if t: nat :| t < |s.tasks| && s.tasks[t].pc.Restarting? {
        step := Restart(t);
      } else if g: nat :| g < |s.groups| && s.groups[g].status.Running? && |s.groups[g].members| < |s.groups[g].items| {
        step := SpawnCanStep(cfg, s, g);
      } else {
        step := QuietCanStep(cfg, nodes, s);
      }
    }
  }

  /** Total correctness: a fault-free run that cannot be extended has copied everything, in any interleaving and with any number of roots. */
  lemma MaximalRunCopiesEverything(cfg: Config, nodes: seq<Key>, states: seq<State>, steps: seq<Step>, j: nat, k: Key)
    requires Covers(cfg, nodes) && Acyclic(Edges(cfg)) && cfg.limit >= 1
    requires Closed(Edges(cfg), cfg.dst0)
    requires IsRun(cfg, states, steps)
    requires forall i :: 0 <= i < |steps| ==> FaultFree(steps[i])
    requires forall step :: !CanStep(cfg, states[|steps|], step)
    requires j < |cfg.jobs| && Reaches(Edges(cfg), cfg.jobs[j].node, k)
    ensures states[|steps|].groups != [] && states[|steps|].groups[0].status == Finished(true)
    ensures k in states[|steps|].dst
  {
    var s := states[|steps|];
    RunKeepsInv(cfg, states, steps, |steps|);
    RunKeepsScope(cfg, states, steps, |steps|);
    RunKeepsClean(cfg, states, steps, |steps|);
    if s.groups[0].status.Running? {
      var step := NeverStuck(cfg, nodes, s);
    }
    NilMeansCopied(cfg, states, steps, |steps|, j, k);
  }
}
