/** What every interleaving of a graph copy keeps, with or without faults and cancellations. */
module CopySafety {
  import opened Descriptors
  import opened Reachability
  import opened Sequences
  import opened CopyProtocol

  ghost function Holders(tasks: seq<Task>): set<nat> {
    set t: nat | t < |tasks| && tasks[t].holding
  }

  /** The region is started exactly while a task works on its own node. */
  ghost predicate RegionOk(task: Task) {
    && (task.pc.Entered? || task.pc.Checking? || task.pc.Finding? || task.pc.Copying? || task.pc.Closing? || task.pc == Ending(Nil) ==> task.holding)
    && (task.pc.InGo? || task.pc.Awaiting? || task.pc.Restarting? || task.pc.Returned? ==> !task.holding)
  }

  ghost predicate Succeeded(pc: Pc) {
    pc == Ending(Nil) || pc == Returned(Nil)
  }

  ghost predicate PlaceOk(s: State, t: nat)
    requires t < |s.tasks|
  {
    var task := s.tasks[t];
    && task.group < |s.groups|
    && task.slot < |s.groups[task.group].members|
    && s.groups[task.group].members[task.slot] == t
    && (task.child.Some? ==>
          && task.group < task.child.value < |s.groups|
          && s.groups[task.child.value].owner == Some(t))
  }

  ghost predicate ChildOk(s: State, t: nat)
    requires t < |s.tasks|
  {
    var task := s.tasks[t];
    && (task.pc.Entered? || task.pc.Checking? || task.pc.Finding? ==> task.child.None?)
    && (task.pc.InGo? ==> task.child.Some? && task.child.value < |s.groups| && s.groups[task.child.value].status.Running?)
    && (task.pc.Awaiting? || task.pc.Restarting? || task.pc.Copying? || task.pc.Closing? || Succeeded(task.pc) ==>
          task.child.Some? ==> task.child.value < |s.groups| && s.groups[task.child.value].status == Finished(true))
    && task.pc != Ending(NotCommitted) && task.pc != Returned(NotCommitted)
  }

  ghost predicate NodeOk(cfg: Config, s: State, t: nat)
    requires t < |s.tasks|
  {
    var task := s.tasks[t];
    var k := task.job.node;
    if task.job.Dispatch? then
      && (task.pc.Entered? || task.pc.InGo? || task.pc.Restarting? || task.pc.Ending? || task.pc.Returned?)
      && (task.pc.Entered? || task.child.Some?)
    else
      && (!task.pc.Entered? ==> k in s.claimed)
      && ((k in s.claimed && s.claimed[k] == t) || task.pc.Entered? || Succeeded(task.pc))
      && (k in s.claimed && s.claimed[k] == t && Succeeded(task.pc) ==> k in s.closes)
      && (task.pc.Finding? || task.pc.InGo? || task.pc.Awaiting? || task.pc.Restarting? || task.pc.Copying? ==> k !in s.dst)
      && (task.pc.Closing? ==> k in s.dst)
      && (task.pc.Awaiting? ==>
            && task.pc.i <= |Succ(cfg, k)|
            && (forall j :: 0 <= j < |Succ(cfg, k)| ==> Succ(cfg, k)[j] in s.claimed)
            && (forall j :: 0 <= j < task.pc.i ==> Succ(cfg, k)[j] in s.closes))
      && (task.pc.Restarting? || task.pc.Copying? ==>
            forall j :: 0 <= j < |Succ(cfg, k)| ==> Succ(cfg, k)[j] in s.closes)
  }

  ghost predicate TaskOk(cfg: Config, s: State, t: nat)
    requires t < |s.tasks|
  {
    RegionOk(s.tasks[t]) && PlaceOk(s, t) && ChildOk(s, t) && NodeOk(cfg, s, t)
  }

  ghost predicate GroupOk(cfg: Config, s: State, g: nat)
    requires g < |s.groups|
  {
    var group := s.groups[g];
    && |group.members| <= |group.items|
    && (forall i :: 0 <= i < |group.members| ==>
          && group.members[i] < |s.tasks|
          && s.tasks[group.members[i]].job == group.items[i]
          && s.tasks[group.members[i]].group == g
          && s.tasks[group.members[i]].slot == i)
    && (g == 0 <==> group.owner.None?)
    && (g == 0 ==> group.items == cfg.jobs)
    && (group.owner.Some? ==>
          && group.owner.value < |s.tasks|
          && s.tasks[group.owner.value].child == Some(g)
          && (group.status.Running? ==> s.tasks[group.owner.value].pc.InGo?)
          && group.items == ChildItems(cfg, s.tasks[group.owner.value].job))
    && (group.status == Finished(true) ==> |group.members| == |group.items| && MembersNil(s, g))
  }

  ghost predicate TrackerOk(cfg: Config, s: State) {
    && (forall k :: k in s.claimed ==>
          && s.claimed[k] < |s.tasks|
          && s.tasks[s.claimed[k]].job == Copy(k)
          && !s.tasks[s.claimed[k]].pc.Entered?)
    && (forall k :: k in s.closes ==> k in s.claimed && s.claimed[k] < |s.tasks| && Succeeded(s.tasks[s.claimed[k]].pc) && k in s.dst)
    && NoDuplicates(s.closes)
  }

  ghost predicate StoreOk(cfg: Config, s: State) {
    && (forall k :: k in s.pushes ==>
          && k !in cfg.dst0
          && k in s.claimed && s.claimed[k] < |s.tasks|
          && var pc := s.tasks[s.claimed[k]].pc; (pc.Closing? || pc.Ending? || pc.Returned?))
    && NoDuplicates(s.pushes)
    && (forall k :: k in s.dst <==> k in cfg.dst0 || k in s.pushes)
    && (Closed(Edges(cfg), cfg.dst0) ==> Closed(Edges(cfg), s.dst))
  }

  ghost predicate Inv(cfg: Config, s: State) {
    && |s.groups| > 0
    && (forall t: nat :: t < |s.tasks| ==> TaskOk(cfg, s, t))
    && (forall g: nat :: g < |s.groups| ==> GroupOk(cfg, s, g))
    && TrackerOk(cfg, s)
    && StoreOk(cfg, s)
    && s.permits + |Holders(s.tasks)| == cfg.limit
  }

  lemma HoldersUpdate(tasks: seq<Task>, t: nat, task: Task)
    requires t < |tasks|
    ensures task.holding == tasks[t].holding ==> Holders(tasks[t := task]) == Holders(tasks)
    ensures task.holding && !tasks[t].holding ==> |Holders(tasks[t := task])| == |Holders(tasks)| + 1
    ensures !task.holding && tasks[t].holding ==> |Holders(tasks[t := task])| == |Holders(tasks)| - 1
  {
    var after := Holders(tasks[t := task]);
    if task.holding == tasks[t].holding {
      assert after == Holders(tasks);
    } else if task.holding {
      assert after == Holders(tasks) + {t};
    } else {
      assert after == Holders(tasks) - {t};
    }
  }

  lemma HoldersAppend(tasks: seq<Task>, task: Task)
    requires task.holding
    ensures |Holders(tasks + [task])| == |Holders(tasks)| + 1
  {
    var longer := tasks + [task];
    assert forall t: nat :: t < |tasks| ==> longer[t] == tasks[t];
    assert longer[|tasks|] == task;
    assert Holders(longer) == Holders(tasks) + {|tasks|};
  }

  /** Task t alone advances: it keeps its place, and only adds claims, closed channels and content of its own. */
  ghost predicate Advances(s: State, s': State, t: nat) {
    && t < |s.tasks|
    && !s.tasks[t].pc.InGo? && !s.tasks[t].pc.Returned?
    && |s'.tasks| == |s.tasks|
    && s'.tasks == s.tasks[t := s'.tasks[t]]
    && s'.tasks[t].job == s.tasks[t].job && s'.tasks[t].group == s.tasks[t].group
    && s'.tasks[t].slot == s.tasks[t].slot && s'.tasks[t].child == s.tasks[t].child
    && s'.groups == s.groups
    && (forall k :: k in s.claimed ==> k in s'.claimed && s'.claimed[k] == s.claimed[k])
    && (forall k :: k in s'.claimed && k !in s.claimed ==> s'.claimed[k] == t)
    && (forall k :: k in s.closes ==> k in s'.closes)
    && s.dst <= s'.dst
    && (forall k :: k in s'.dst && k !in s.dst ==> k in s'.claimed && s'.claimed[k] == t)
    && s'.permits + (if s'.tasks[t].holding then 1 else 0) == s.permits + (if s.tasks[t].holding then 1 else 0)
  }

  lemma AdvanceKeepsOthers(cfg: Config, s: State, s': State, t: nat)
    requires Inv(cfg, s) && Advances(s, s', t)
    ensures forall u: nat :: u < |s.tasks| && u != t ==> TaskOk(cfg, s', u)
    ensures PlaceOk(s', t)
    ensures s'.permits + |Holders(s'.tasks)| == cfg.limit
  {
    HoldersUpdate(s.tasks, t, s'.tasks[t]);
    assert TaskOk(cfg, s, t);
    forall u: nat | u < |s.tasks| && u != t ensures TaskOk(cfg, s', u) {
      assert TaskOk(cfg, s, u);
    }
  }

  lemma AdvanceKeepsGroups(cfg: Config, s: State, s': State, t: nat)
    requires Inv(cfg, s) && Advances(s, s', t)
    ensures forall g: nat :: g < |s.groups| ==> GroupOk(cfg, s', g)
  {
    forall g: nat | g < |s.groups| ensures GroupOk(cfg, s', g) {
      assert GroupOk(cfg, s, g);
    }
  }

  /** Where only one task advances, only that task, the tracker and the store need a look. */
  lemma AdvanceKeepsInv(cfg: Config, s: State, s': State, t: nat)
    requires Inv(cfg, s) && Advances(s, s', t) && |s'.groups| > 0
    requires RegionOk(s'.tasks[t]) && ChildOk(s', t) && NodeOk(cfg, s', t) && TrackerOk(cfg, s') && StoreOk(cfg, s')
    ensures Inv(cfg, s')
  {
    AdvanceKeepsOthers(cfg, s, s', t);
    AdvanceKeepsGroups(cfg, s, s', t);
  }

  lemma AdvanceKeepsStore(cfg: Config, s: State, s': State, t: nat)
    requires Inv(cfg, s) && Advances(s, s', t) && s'.pushes == s.pushes && s'.dst == s.dst
    requires s.tasks[t].pc.Closing? || s.tasks[t].pc.Ending? ==> s'.tasks[t].pc.Ending? || s'.tasks[t].pc.Returned?
    ensures StoreOk(cfg, s')
  {
    hide TaskOk, GroupOk, TrackerOk, Closed;
  }

  lemma AdvanceKeepsTracker(cfg: Config, s: State, s': State, t: nat)
    requires Inv(cfg, s) && Advances(s, s', t) && s'.claimed == s.claimed && s'.closes == s.closes
    requires !Succeeded(s.tasks[t].pc) && !s'.tasks[t].pc.Entered?
    ensures TrackerOk(cfg, s')
  {
    hide TaskOk, GroupOk, StoreOk;
  }

  lemma ClaimKeepsInv(cfg: Config, s: State, t: nat)
    requires Inv(cfg, s) && Enabled(cfg, s, Claim(t))
    ensures Inv(cfg, Apply(cfg, s, Claim(t)))
  {
    var s' := Apply(cfg, s, Claim(t));
    assert TaskOk(cfg, s, t);
    AdvanceKeepsInv(cfg, s, s', t);
  }

  lemma CheckKeepsInv(cfg: Config, s: State, t: nat, answer: Answer)
    requires Inv(cfg, s) && Enabled(cfg, s, Check(t, answer))
    ensures Inv(cfg, Apply(cfg, s, Check(t, answer)))
  {
    var s' := Apply(cfg, s, Check(t, answer));
    assert TaskOk(cfg, s, t);
    AdvanceKeepsInv(cfg, s, s', t);
  }

  lemma AwaitNextAdvances(cfg: Config, s: State, t: nat)
    requires Enabled(cfg, s, AwaitNext(t)) && TaskOk(cfg, s, t)
    ensures var s' := Apply(cfg, s, AwaitNext(t));
            && Advances(s, s', t) && s'.tasks[t] == s.tasks[t].(pc := Awaiting(s.tasks[t].pc.i + 1))
            && s'.claimed == s.claimed && s'.closes == s.closes && s'.pushes == s.pushes && s'.dst == s.dst
            && RegionOk(s'.tasks[t]) && ChildOk(s', t) && NodeOk(cfg, s', t)
  {
    assert Succ(cfg, s.tasks[t].job.node)[s.tasks[t].pc.i] in s.claimed;
  }

  lemma AwaitNextKeepsInv(cfg: Config, s: State, t: nat)
    requires Inv(cfg, s) && Enabled(cfg, s, AwaitNext(t))
    ensures Inv(cfg, Apply(cfg, s, AwaitNext(t)))
  {
    hide Apply, StoreOk, GroupOk, TaskOk, TrackerOk, RegionOk, ChildOk, NodeOk;
    var s' := Apply(cfg, s, AwaitNext(t));
    AwaitNextAdvances(cfg, s, t);
    AdvanceKeepsStore(cfg, s, s', t);
    AdvanceKeepsTracker(cfg, s, s', t);
    AdvanceKeepsInv(cfg, s, s', t);
  }

  lemma AwaitAllKeepsInv(cfg: Config, s: State, t: nat)
    requires Inv(cfg, s) && Enabled(cfg, s, AwaitAll(t))
    ensures Inv(cfg, Apply(cfg, s, AwaitAll(t)))
  {
    var s' := Apply(cfg, s, AwaitAll(t));
    assert TaskOk(cfg, s, t);
    AdvanceKeepsInv(cfg, s, s', t);
  }

  lemma AwaitCancelledKeepsInv(cfg: Config, s: State, t: nat)
    requires Inv(cfg, s) && Enabled(cfg, s, AwaitCancelled(t))
    ensures Inv(cfg, Apply(cfg, s, AwaitCancelled(t)))
  {
    var s' := Apply(cfg, s, AwaitCancelled(t));
    assert TaskOk(cfg, s, t);
    AdvanceKeepsInv(cfg, s, s', t);
  }

  lemma RestartKeepsInv(cfg: Config, s: State, t: nat)
    requires Inv(cfg, s) && Enabled(cfg, s, Restart(t))
    ensures Inv(cfg, Apply(cfg, s, Restart(t)))
  {
    var s' := Apply(cfg, s, Restart(t));
    assert TaskOk(cfg, s, t);
    AdvanceKeepsInv(cfg, s, s', t);
  }

  lemma RestartCancelledKeepsInv(cfg: Config, s: State, t: nat)
    requires Inv(cfg, s) && Enabled(cfg, s, RestartCancelled(t))
    ensures Inv(cfg, Apply(cfg, s, RestartCancelled(t)))
  {
    var s' := Apply(cfg, s, RestartCancelled(t));
    assert TaskOk(cfg, s, t);
    AdvanceKeepsInv(cfg, s, s', t);
  }

  lemma StoringKeepsStore(cfg: Config, s: State, s': State, t: nat)
    requires Inv(cfg, s) && CopyAt(s, t, Copying) && Advances(s, s', t)
    requires s'.tasks[t].pc.Closing? || s'.tasks[t].pc.Ending?
    requires s'.claimed == s.claimed
    requires s'.dst == s.dst + {s.tasks[t].job.node} && s'.pushes == s.pushes + [s.tasks[t].job.node]
    ensures StoreOk(cfg, s')
  {
    assert TaskOk(cfg, s, t);
    var k := s.tasks[t].job.node;
    forall a, b | Closed(Edges(cfg), cfg.dst0) && a in s'.dst && b in Succ(cfg, a) ensures b in s'.dst {
      if a in s.dst {
        assert b in Edges(cfg)(a);
      } else {
        var j :| 0 <= j < |Succ(cfg, k)| && Succ(cfg, k)[j] == b;
      }
    }
  }

  lemma PushAdvances(cfg: Config, s: State, t: nat, stored: bool, ok: bool)
    requires Enabled(cfg, s, Push(t, stored, ok)) && s.tasks[t].job.node in s.claimed && s.claimed[s.tasks[t].job.node] == t
    ensures var s' := Apply(cfg, s, Push(t, stored, ok));
            && Advances(s, s', t) && s'.tasks[t] == s.tasks[t].(pc := if ok then Closing else Ending(Failed))
            && s'.claimed == s.claimed && s'.closes == s.closes
            && (if stored then s'.dst == s.dst + {s.tasks[t].job.node} && s'.pushes == s.pushes + [s.tasks[t].job.node]
                else s'.dst == s.dst && s'.pushes == s.pushes)
  {
  }

  lemma PushKeepsInv(cfg: Config, s: State, t: nat, stored: bool, ok: bool)
    requires Inv(cfg, s) && Enabled(cfg, s, Push(t, stored, ok))
    ensures Inv(cfg, Apply(cfg, s, Push(t, stored, ok)))
  {
    var s' := Apply(cfg, s, Push(t, stored, ok));
    assert TaskOk(cfg, s, t);
    PushAdvances(cfg, s, t, stored, ok);
    hide Apply;
    if stored {
      StoringKeepsStore(cfg, s, s', t);
    } else {
      AdvanceKeepsStore(cfg, s, s', t);
    }
    hide StoreOk, GroupOk;
    AdvanceKeepsInv(cfg, s, s', t);
  }

  lemma CloseAdvances(cfg: Config, s: State, t: nat)
    requires Enabled(cfg, s, Close(t))
    ensures var s' := Apply(cfg, s, Close(t));
            && Advances(s, s', t) && s'.tasks[t] == s.tasks[t].(pc := Ending(Nil))
            && s'.claimed == s.claimed && s'.closes == s.closes + [s.tasks[t].job.node] && s'.pushes == s.pushes && s'.dst == s.dst
  {
  }

  lemma CloseKeepsInv(cfg: Config, s: State, t: nat)
    requires Inv(cfg, s) && Enabled(cfg, s, Close(t))
    ensures Inv(cfg, Apply(cfg, s, Close(t)))
  {
    var s' := Apply(cfg, s, Close(t));
    assert TaskOk(cfg, s, t);
    CloseAdvances(cfg, s, t);
    AdvanceKeepsStore(cfg, s, s', t);
    hide Apply, StoreOk, GroupOk;
    AdvanceKeepsInv(cfg, s, s', t);
  }

  lemma EndAdvances(cfg: Config, s: State, t: nat)
    requires Enabled(cfg, s, End(t))
    ensures var s' := Apply(cfg, s, End(t));
            && Advances(s, s', t) && !s'.tasks[t].holding && s'.tasks[t].pc == Returned(s.tasks[t].pc.out)
            && s'.claimed == s.claimed && s'.closes == s.closes && s'.pushes == s.pushes && s'.dst == s.dst
  {
  }

  lemma EndKeepsInv(cfg: Config, s: State, t: nat)
    requires Inv(cfg, s) && Enabled(cfg, s, End(t))
    ensures Inv(cfg, Apply(cfg, s, End(t)))
  {
    var s' := Apply(cfg, s, End(t));
    assert TaskOk(cfg, s, t);
    EndAdvances(cfg, s, t);
    AdvanceKeepsStore(cfg, s, s', t);
    hide Apply, StoreOk, GroupOk;
    AdvanceKeepsInv(cfg, s, s', t);
  }

  ghost predicate CanEnterGo(s: State, t: nat) {
    t < |s.tasks| && (s.tasks[t].pc.Finding? || (s.tasks[t].pc.Entered? && s.tasks[t].job.Dispatch?))
  }

  lemma EnterGoKeepsTasks(cfg: Config, s: State, t: nat, u: nat)
    requires Inv(cfg, s) && CanEnterGo(s, t) && u < |s.tasks|
    ensures TaskOk(cfg, EnterGo(cfg, s, t), u)
  {
    var s' := EnterGo(cfg, s, t);
    assert TaskOk(cfg, s, t) && TaskOk(cfg, s, u);
    assert forall g: nat :: g < |s.groups| ==> s'.groups[g] == s.groups[g];
  }

  lemma EnterGoKeepsGroups(cfg: Config, s: State, t: nat, g: nat)
    requires Inv(cfg, s) && CanEnterGo(s, t) && g <= |s.groups|
    ensures GroupOk(cfg, EnterGo(cfg, s, t), g)
  {
    assert TaskOk(cfg, s, t);
    assert g < |s.groups| ==> GroupOk(cfg, s, g);
  }

  lemma EnterGoKeepsInv(cfg: Config, s: State, t: nat)
    requires Inv(cfg, s) && CanEnterGo(s, t)
    ensures Inv(cfg, EnterGo(cfg, s, t))
  {
    var s' := EnterGo(cfg, s, t);
    HoldersUpdate(s.tasks, t, s'.tasks[t]);
    assert s'.tasks == s.tasks[t := s'.tasks[t]];
    forall u: nat | u < |s'.tasks| ensures TaskOk(cfg, s', u) {
      EnterGoKeepsTasks(cfg, s, t, u);
    }
    forall g: nat | g < |s'.groups| ensures GroupOk(cfg, s', g) {
      EnterGoKeepsGroups(cfg, s, t, g);
    }
    assert TaskOk(cfg, s, t);
  }

  lemma FindKeepsInv(cfg: Config, s: State, t: nat, ok: bool)
    requires Inv(cfg, s) && Enabled(cfg, s, Find(t, ok))
    ensures Inv(cfg, Apply(cfg, s, Find(t, ok)))
  {
    if ok && Succ(cfg, s.tasks[t].job.node) != [] {
      EnterGoKeepsInv(cfg, s, t);
    } else {
      var s' := Apply(cfg, s, Find(t, ok));
      assert TaskOk(cfg, s, t);
      AdvanceKeepsOthers(cfg, s, s', t);
      AdvanceKeepsGroups(cfg, s, s', t);
      assert TaskOk(cfg, s', t);
    }
  }

  lemma SpawnKeepsTasks(cfg: Config, s: State, g: nat, u: nat)
    requires Inv(cfg, s) && Enabled(cfg, s, Spawn(g)) && u <= |s.tasks|
    ensures TaskOk(cfg, Apply(cfg, s, Spawn(g)), u)
  {
    assert GroupOk(cfg, s, g);
    assert u < |s.tasks| ==> TaskOk(cfg, s, u);
  }

  lemma SpawnKeepsGroups(cfg: Config, s: State, g: nat, g': nat)
    requires Enabled(cfg, s, Spawn(g)) && g' < |s.groups| && GroupOk(cfg, s, g) && GroupOk(cfg, s, g')
    ensures GroupOk(cfg, Apply(cfg, s, Spawn(g)), g')
  {
  }

  lemma SpawnKeepsInv(cfg: Config, s: State, g: nat)
    requires Inv(cfg, s) && Enabled(cfg, s, Spawn(g))
    ensures Inv(cfg, Apply(cfg, s, Spawn(g)))
  {
    var s' := Apply(cfg, s, Spawn(g));
    HoldersAppend(s.tasks, s'.tasks[|s.tasks|]);
    forall u: nat | u < |s'.tasks| ensures TaskOk(cfg, s', u) {
      SpawnKeepsTasks(cfg, s, g, u);
    }
    forall g': nat | g' < |s'.groups| ensures GroupOk(cfg, s', g') {
      SpawnKeepsGroups(cfg, s, g, g');
    }
  }

  ghost predicate CanLeaveGo(s: State, g: nat, ok: bool) {
    OpenGroupAt(s, g) && (ok ==> |s.groups[g].members| == |s.groups[g].items| && MembersNil(s, g))
  }

  lemma LeaveGoKeepsOthers(cfg: Config, s: State, g: nat, ok: bool, u: nat)
    requires Inv(cfg, s) && CanLeaveGo(s, g, ok) && u < |s.tasks| && s.groups[g].owner != Some(u)
    ensures TaskOk(cfg, LeaveGo(s, g, ok), u)
  {
    assert GroupOk(cfg, s, g);
    assert TaskOk(cfg, s, u);
  }

  lemma LeaveGoKeepsTasks(cfg: Config, s: State, g: nat, ok: bool, u: nat)
    requires Inv(cfg, s) && CanLeaveGo(s, g, ok) && u < |s.tasks|
    ensures TaskOk(cfg, LeaveGo(s, g, ok), u)
  {
    if s.groups[g].owner != Some(u) {
      LeaveGoKeepsOthers(cfg, s, g, ok, u);
    } else {
      assert GroupOk(cfg, s, g);
      assert TaskOk(cfg, s, u);
      if ok && s.tasks[u].job.Copy? {
        MembersClaimed(cfg, s, g, s.tasks[u].job.node);
      }
    }
  }

  lemma LeaveGoKeepsGroups(cfg: Config, s: State, g: nat, ok: bool, g': nat)
    requires CanLeaveGo(s, g, ok) && g' < |s.groups| && GroupOk(cfg, s, g) && GroupOk(cfg, s, g')
    ensures GroupOk(cfg, LeaveGo(s, g, ok), g')
  {
    var s' := LeaveGo(s, g, ok);
    var members := s.groups[g'].members;
    forall i | 0 <= i < |members|
      ensures s'.tasks[members[i]] == s.tasks[members[i]].(pc := s'.tasks[members[i]].pc)
      ensures s.tasks[members[i]].pc == Returned(Nil) ==> s'.tasks[members[i]].pc == Returned(Nil)
    {
    }
    assert s'.groups[g'].members == members;
    assert s'.groups[g'].status == Finished(true) ==> MembersNil(s, g');
    assert s'.groups[g'].status == Finished(true) ==> MembersNil(s', g');
  }

  lemma LeaveGoKeepsInv(cfg: Config, s: State, g: nat, ok: bool)
    requires Inv(cfg, s) && CanLeaveGo(s, g, ok)
    ensures Inv(cfg, LeaveGo(s, g, ok))
  {
    var s' := LeaveGo(s, g, ok);
    if s.groups[g].owner.Some? {
      HoldersUpdate(s.tasks, s.groups[g].owner.value, s'.tasks[s.groups[g].owner.value]);
    }
    forall u: nat | u < |s'.tasks| ensures TaskOk(cfg, s', u) {
      LeaveGoKeepsTasks(cfg, s, g, ok, u);
    }
    forall g': nat | g' < |s'.groups| ensures GroupOk(cfg, s', g') {
      LeaveGoKeepsGroups(cfg, s, g, ok, g');
    }
    assert GroupOk(cfg, s, g);
  }

  /** Once the nested Go has returned nil, every successor has been claimed by someone. */
  lemma MembersClaimed(cfg: Config, s: State, g: nat, k: Key)
    requires Inv(cfg, s) && g < |s.groups| && s.groups[g].items == ChildItems(cfg, Copy(k))
    requires |s.groups[g].members| == |s.groups[g].items| && MembersNil(s, g)
    ensures forall j :: 0 <= j < |Succ(cfg, k)| ==> Succ(cfg, k)[j] in s.claimed
  {
    assert GroupOk(cfg, s, g);
    forall j | 0 <= j < |Succ(cfg, k)| ensures Succ(cfg, k)[j] in s.claimed {
      assert s.groups[g].items[j] == Copy(Succ(cfg, k)[j]);
      assert TaskOk(cfg, s, s.groups[g].members[j]);
    }
  }

  lemma CancelKeepsGroups(cfg: Config, s: State, g: nat, g': nat)
    requires Enabled(cfg, s, Cancel(g)) && g' < |s.groups| && GroupOk(cfg, s, g')
    ensures GroupOk(cfg, Apply(cfg, s, Cancel(g)), g')
  {
  }

  lemma CancelKeepsTasks(cfg: Config, s: State, g: nat, u: nat)
    requires Enabled(cfg, s, Cancel(g)) && u < |s.tasks| && TaskOk(cfg, s, u)
    ensures TaskOk(cfg, Apply(cfg, s, Cancel(g)), u)
  {
  }

  lemma CancelKeepsInv(cfg: Config, s: State, g: nat)
    requires Inv(cfg, s) && Enabled(cfg, s, Cancel(g))
    ensures Inv(cfg, Apply(cfg, s, Cancel(g)))
  {
    var s' := Apply(cfg, s, Cancel(g));
    hide GroupOk, TaskOk;
    forall u: nat | u < |s'.tasks| ensures TaskOk(cfg, s', u) {
      CancelKeepsTasks(cfg, s, g, u);
    }
    forall g': nat | g' < |s'.groups| ensures GroupOk(cfg, s', g') {
      CancelKeepsGroups(cfg, s, g, g');
    }
  }

  lemma StepKeepsInv(cfg: Config, s: State, step: Step)
    requires Inv(cfg, s) && Enabled(cfg, s, step)
    ensures Inv(cfg, Apply(cfg, s, step))
  {
    match step
    case Begin(t) => EnterGoKeepsInv(cfg, s, t);
    case Claim(t) => ClaimKeepsInv(cfg, s, t);
    case Check(t, answer) => CheckKeepsInv(cfg, s, t, answer);
    case Find(t, ok) => FindKeepsInv(cfg, s, t, ok);
    case Spawn(g) => SpawnKeepsInv(cfg, s, g);
    case Abort(g) => LeaveGoKeepsInv(cfg, s, g, false);
    case Join(g) => LeaveGoKeepsInv(cfg, s, g, MembersNil(s, g));
    case AwaitNext(t) => AwaitNextKeepsInv(cfg, s, t);
    case AwaitAll(t) => AwaitAllKeepsInv(cfg, s, t);
    case AwaitCancelled(t) => AwaitCancelledKeepsInv(cfg, s, t);
    case Restart(t) => RestartKeepsInv(cfg, s, t);
    case RestartCancelled(t) => RestartCancelledKeepsInv(cfg, s, t);
    case Push(t, stored, ok) => PushKeepsInv(cfg, s, t, stored, ok);
    case Close(t) => CloseKeepsInv(cfg, s, t);
    case End(t) => EndKeepsInv(cfg, s, t);
    case Cancel(g) => CancelKeepsInv(cfg, s, g);
  }

  lemma InitInv(cfg: Config)
    ensures Inv(cfg, Init(cfg))
  {
    assert Holders([]) == {};
  }

  /** The invariant holds in every state of every run. */
  lemma {:induction false} RunKeepsInv(cfg: Config, states: seq<State>, steps: seq<Step>, i: nat)
    requires IsRun(cfg, states, steps) && i < |states|
    ensures Inv(cfg, states[i])
  {
    if i == 0 {
      InitInv(cfg);
    } else {
      RunKeepsInv(cfg, states, steps, i - 1);
      assert Enabled(cfg, states[i - 1], steps[i - 1]);
      StepKeepsInv(cfg, states[i - 1], steps[i - 1]);
    }
  }
}
