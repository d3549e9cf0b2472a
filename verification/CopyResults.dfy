/** What a caller of CopyGraph or ExtendedCopyGraph can rely on, for every interleaving. */
module CopyResults {
  import opened Descriptors
  import opened Reachability
  import opened Sequences
  import opened CopyProtocol
  import opened CopySafety

  /** A destination that starts closed under non-foreign successors is closed in every state, also of failed and cancelled runs. */
  lemma DestinationStaysClosed(cfg: Config, states: seq<State>, steps: seq<Step>, i: nat)
    requires IsRun(cfg, states, steps) && i < |states|
    requires Closed(Edges(cfg), cfg.dst0)
    ensures Closed(Edges(cfg), states[i].dst)
  {
    RunKeepsInv(cfg, states, steps, i);
  }

  /** A node is stored at most once and only if it was missing, a done channel is closed at most once, and the "successor not committed" error is unreachable. */
  lemma CopiedAtMostOnce(cfg: Config, states: seq<State>, steps: seq<Step>, i: nat)
    requires IsRun(cfg, states, steps) && i < |states|
    ensures NoDuplicates(states[i].pushes) && NoDuplicates(states[i].closes)
    ensures forall k :: k in states[i].dst <==> k in cfg.dst0 || k in states[i].pushes
    ensures forall k :: k in states[i].pushes ==> k !in cfg.dst0
    ensures forall k :: k in states[i].closes ==> k in states[i].dst
    ensures forall t: nat :: !At(states[i], t, Ending(NotCommitted)) && !At(states[i], t, Returned(NotCommitted))
  {
    var s := states[i];
    RunKeepsInv(cfg, states, steps, i);
    forall t: nat ensures !At(s, t, Ending(NotCommitted)) && !At(s, t, Returned(NotCommitted)) {
      assert t < |s.tasks| ==> TaskOk(cfg, s, t);
    }
  }

  ghost predicate Working(pc: Pc) {
    pc.Checking? || pc.Finding? || pc.InGo? || pc.Awaiting? || pc.Restarting? || pc.Copying? || pc.Closing?
  }

  /** Two goroutines never work on the same node at the same time. */
  lemma OneWorkerPerNode(cfg: Config, states: seq<State>, steps: seq<Step>, i: nat, t: nat, u: nat)
    requires IsRun(cfg, states, steps) && i < |states|
    requires t < |states[i].tasks| && u < |states[i].tasks|
    requires states[i].tasks[t].job.Copy? && states[i].tasks[u].job == states[i].tasks[t].job
    requires Working(states[i].tasks[t].pc) && Working(states[i].tasks[u].pc)
    ensures t == u
  {
    RunKeepsInv(cfg, states, steps, i);
    assert TaskOk(cfg, states[i], t) && TaskOk(cfg, states[i], u);
  }

  /** A claim is never given up or passed on. */
  lemma {:induction false} ClaimsAreFinal(cfg: Config, states: seq<State>, steps: seq<Step>, i: nat, j: nat, k: Key)
    requires IsRun(cfg, states, steps) && i <= j < |states| && k in states[i].claimed
    ensures k in states[j].claimed && states[j].claimed[k] == states[i].claimed[k]
  {
    if i < j {
      ClaimsAreFinal(cfg, states, steps, i, j - 1, k);
      assert Enabled(cfg, states[j - 1], steps[j - 1]);
      ClaimStays(cfg, states[j - 1], steps[j - 1], k);
    }
  }

  lemma ClaimStays(cfg: Config, s: State, step: Step, k: Key)
    requires Enabled(cfg, s, step) && k in s.claimed
    ensures k in Apply(cfg, s, step).claimed && Apply(cfg, s, step).claimed[k] == s.claimed[k]
  {
  }

  /** Over a whole run, two goroutines that ever work on the same node are the same. */
  lemma OneWorkerPerRun(cfg: Config, states: seq<State>, steps: seq<Step>, i: nat, j: nat, t: nat, u: nat)
    requires IsRun(cfg, states, steps) && i <= j < |states|
    requires t < |states[i].tasks| && u < |states[j].tasks|
    requires states[i].tasks[t].job.Copy? && states[j].tasks[u].job == states[i].tasks[t].job
    requires Working(states[i].tasks[t].pc) && Working(states[j].tasks[u].pc)
    ensures t == u
  {
    RunKeepsInv(cfg, states, steps, i);
    RunKeepsInv(cfg, states, steps, j);
    assert TaskOk(cfg, states[i], t) && TaskOk(cfg, states[j], u);
    hide IsRun;
    ClaimsAreFinal(cfg, states, steps, i, j, states[i].tasks[t].job.node);
  }

  /** Free permits and started regions add up to the limit; nobody holds a permit while spawning or waiting, and everybody does while copying and until a successful end. */
  lemma PermitsAreConserved(cfg: Config, states: seq<State>, steps: seq<Step>, i: nat)
    requires IsRun(cfg, states, steps) && i < |states|
    ensures states[i].permits + |Holders(states[i].tasks)| == cfg.limit
    ensures forall t: nat :: t in Holders(states[i].tasks) ==>
              var pc := states[i].tasks[t].pc;
              !pc.InGo? && !pc.Awaiting? && !pc.Restarting? && !pc.Returned?
    ensures forall t: nat :: At(states[i], t, Copying) || At(states[i], t, Ending(Nil)) ==> t in Holders(states[i].tasks)
  {
    var s := states[i];
    RunKeepsInv(cfg, states, steps, i);
    forall t: nat | At(s, t, Copying) || At(s, t, Ending(Nil)) ensures t in Holders(s.tasks) {
      assert TaskOk(cfg, s, t);
    }
    forall t: nat | t in Holders(s.tasks)
      ensures var pc := s.tasks[t].pc; !pc.InGo? && !pc.Awaiting? && !pc.Restarting? && !pc.Returned?
    {
      assert TaskOk(cfg, s, t);
    }
  }

  /** A nil return of the outermost Go means that every goroutine ever started has returned nil. */
  lemma {:induction false} NilReachesDown(cfg: Config, s: State, g: nat)
    requires Inv(cfg, s) && s.groups[0].status == Finished(true) && g < |s.groups|
    ensures s.groups[g].status == Finished(true)
    decreases g
  {
    assert GroupOk(cfg, s, g);
    if g > 0 {
      var u := s.groups[g].owner.value;
      assert TaskOk(cfg, s, u);
      NilReachesDown(cfg, s, s.tasks[u].group);
      assert GroupOk(cfg, s, s.tasks[u].group);
    }
  }

  lemma NilMeansAllReturned(cfg: Config, s: State, t: nat)
    requires Inv(cfg, s) && s.groups[0].status == Finished(true) && t < |s.tasks|
    ensures s.tasks[t].pc == Returned(Nil)
  {
    assert TaskOk(cfg, s, t);
    NilReachesDown(cfg, s, s.tasks[t].group);
    assert GroupOk(cfg, s, s.tasks[t].group);
  }

  lemma NilMeansClaimedIsDone(cfg: Config, s: State, k: Key)
    requires Inv(cfg, s) && s.groups[0].status == Finished(true) && k in s.claimed
    ensures k in s.closes && k in s.dst
  {
    NilMeansAllReturned(cfg, s, s.claimed[k]);
    assert TaskOk(cfg, s, s.claimed[k]);
  }

  /** The node a job of the outermost call names is in the destination once that call has returned nil. */
  lemma NilMeansJobDone(cfg: Config, s: State, j: nat)
    requires Inv(cfg, s) && s.groups[0].status == Finished(true) && j < |cfg.jobs|
    ensures cfg.jobs[j].node in s.dst
  {
    assert GroupOk(cfg, s, 0);
    var t := s.groups[0].members[j];
    NilMeansAllReturned(cfg, s, t);
    NilMeansTaskDone(cfg, s, t);
  }

  lemma NilMeansTaskDone(cfg: Config, s: State, t: nat)
    requires Inv(cfg, s) && s.groups[0].status == Finished(true) && t < |s.tasks|
    ensures s.tasks[t].job.node in s.dst
    decreases s.tasks[t].job.Dispatch?
  {
    assert TaskOk(cfg, s, t);
    NilMeansAllReturned(cfg, s, t);
    if s.tasks[t].job.Copy? {
      NilMeansClaimedIsDone(cfg, s, s.tasks[t].job.node);
    } else {
      var g := s.tasks[t].child.value;
      assert GroupOk(cfg, s, g);
      NilReachesDown(cfg, s, g);
      var u := s.groups[g].members[0];
      assert s.tasks[u].job == Copy(s.tasks[t].job.node);
      NilMeansTaskDone(cfg, s, u);
    }
  }

  /** The main guarantee: on a nil return everything reachable from the requested nodes through non-foreign successors is present. */
  lemma NilMeansCopied(cfg: Config, states: seq<State>, steps: seq<Step>, i: nat, j: nat, k: Key)
    requires IsRun(cfg, states, steps) && i < |states|
    requires Closed(Edges(cfg), cfg.dst0)
    requires states[i].groups != [] && states[i].groups[0].status == Finished(true)
    requires j < |cfg.jobs| && Reaches(Edges(cfg), cfg.jobs[j].node, k)
    ensures k in states[i].dst
  {
    RunKeepsInv(cfg, states, steps, i);
    NilMeansJobDone(cfg, states[i], j);
    ClosedHoldsReachable(Edges(cfg), states[i].dst, cfg.jobs[j].node, k);
  }

  ghost predicate FromJobs(cfg: Config, k: Key) {
    exists j: nat :: j < |cfg.jobs| && Reaches(Edges(cfg), cfg.jobs[j].node, k)
  }

  ghost predicate InScope(cfg: Config, s: State) {
    forall g: nat, i: nat :: g < |s.groups| && i < |s.groups[g].items| ==> FromJobs(cfg, s.groups[g].items[i].node)
  }

  lemma ChildItemsInScope(cfg: Config, job: Job, i: nat)
    requires FromJobs(cfg, job.node) && i < |ChildItems(cfg, job)|
    ensures FromJobs(cfg, ChildItems(cfg, job)[i].node)
  {
    if job.Copy? {
      var j: nat :| j < |cfg.jobs| && Reaches(Edges(cfg), cfg.jobs[j].node, job.node);
      var k := Succ(cfg, job.node)[i];
      assert k in Edges(cfg)(job.node);
      ReachesStep(Edges(cfg), cfg.jobs[j].node, job.node, k);
    }
  }

  lemma StepKeepsScope(cfg: Config, s: State, step: Step)
    requires Inv(cfg, s) && InScope(cfg, s) && Enabled(cfg, s, step)
    ensures InScope(cfg, Apply(cfg, s, step))
  {
    var s' := Apply(cfg, s, step);
    forall g: nat, i: nat | g < |s'.groups| && i < |s'.groups[g].items|
      ensures FromJobs(cfg, s'.groups[g].items[i].node)
    {
      if g < |s.groups| {
        assert s'.groups[g].items == s.groups[g].items;
      } else {
        var t := step.t;
        TaskInScope(cfg, s, t);
        ChildItemsInScope(cfg, s.tasks[t].job, i);
      }
    }
  }

  lemma TaskInScope(cfg: Config, s: State, t: nat)
    requires Inv(cfg, s) && InScope(cfg, s) && t < |s.tasks|
    ensures FromJobs(cfg, s.tasks[t].job.node)
  {
    assert TaskOk(cfg, s, t);
    assert GroupOk(cfg, s, s.tasks[t].group);
  }

  lemma {:induction false} RunKeepsScope(cfg: Config, states: seq<State>, steps: seq<Step>, i: nat)
    requires IsRun(cfg, states, steps) && i < |states|
    ensures InScope(cfg, states[i])
  {
    if i == 0 {
      forall j: nat | j < |cfg.jobs| ensures FromJobs(cfg, cfg.jobs[j].node) {
        ReachesSelf(Edges(cfg), cfg.jobs[j].node);
      }
    } else {
      RunKeepsScope(cfg, states, steps, i - 1);
      RunKeepsInv(cfg, states, steps, i - 1);
      assert Enabled(cfg, states[i - 1], steps[i - 1]);
      StepKeepsScope(cfg, states[i - 1], steps[i - 1]);
    }
  }

  /** Nothing outside the requested graphs is ever stored. */
  lemma OnlyRequestedIsStored(cfg: Config, states: seq<State>, steps: seq<Step>, i: nat, k: Key)
    requires IsRun(cfg, states, steps) && i < |states|
    requires k in states[i].dst
    ensures k in cfg.dst0 || FromJobs(cfg, k)
  {
    RunKeepsInv(cfg, states, steps, i);
    RunKeepsScope(cfg, states, steps, i);
    if k !in cfg.dst0 {
      TaskInScope(cfg, states[i], states[i].claimed[k]);
    }
  }

  /** The source lists x below k, and not as a foreign layer. */
  ghost predicate Offers(cfg: Config, k: Key, x: Key) {
    exists d :: d in cfg.source(k) && !IsForeignLayer(d) && FromOCI(d) == x
  }

  lemma SuccessorsAreOffered(cfg: Config, k: Key, x: Key)
    ensures x in Succ(cfg, k) <==> Offers(cfg, k, x)
  {
    var kept := NonForeign(cfg.source(k));
    if x in Succ(cfg, k) {
      var i :| 0 <= i < |kept| && Keys(kept)[i] == x;
      NonForeignKeepsExactly(cfg.source(k), kept[i]);
    }
    if d :| d in cfg.source(k) && !IsForeignLayer(d) && FromOCI(d) == x {
      NonForeignKeepsExactly(cfg.source(k), d);
      var i :| 0 <= i < |kept| && kept[i] == d;
      assert Keys(kept)[i] == x;
    }
  }

  /** A foreign layer is never stored, unless it was asked for by itself. */
  lemma ForeignIsNeverStored(cfg: Config, states: seq<State>, steps: seq<Step>, i: nat, k: Key)
    requires IsRun(cfg, states, steps) && i < |states| && k in states[i].pushes && IsForeignLayer(Plain(k))
    ensures exists j: nat :: j < |cfg.jobs| && cfg.jobs[j].node == k
  {
    CopiedAtMostOnce(cfg, states, steps, i);
    OnlyRequestedIsStored(cfg, states, steps, i, k);
    var j: nat :| j < |cfg.jobs| && Reaches(Edges(cfg), cfg.jobs[j].node, k);
    var p :| PathFrom(Edges(cfg), cfg.jobs[j].node, p, k);
    if |p| > 1 {
      assert p[|p| - 2 + 1] in Edges(cfg)(p[|p| - 2]);
      SuccessorsAreOffered(cfg, p[|p| - 2], k);
    }
  }
}
