/** Single flight, final outcomes, tokens that belong to their request, and progress of the token cache. */
module TokenResults {
  import opened Descriptors
  import opened Sums
  import opened TokenCache
  import opened TokenSafety

  /** At most one fetch is in flight for each registry, scheme and key. */
  lemma OneFetchAtATime(cfg: Config, states: seq<State>, steps: seq<Step>, i: nat, c: nat, d: nat)
    requires IsRun(cfg, states, steps) && i < |states| && c < |cfg| && d < |cfg|
    requires |states[i].callers| == |cfg| && states[i].callers[c].Fetching? && states[i].callers[d].Fetching?
    requires StatusKey(cfg[c]) == StatusKey(cfg[d])
    ensures c == d
  {
    RunKeepsInv(cfg, states, steps, i);
    var s := states[i];
    assert CallerOk(cfg, s, c) && CallerOk(cfg, s, d);
    assert OnceOk(cfg, s, s.callers[c].once) && OnceOk(cfg, s, s.callers[d].once);
  }

  lemma StepKeepsOutcome(cfg: Config, s: State, step: Step, o: nat)
    requires Inv(cfg, s) && Enabled(cfg, s, step) && o < |s.onces| && s.onces[o].outcome.Some?
    ensures var s' := Apply(cfg, s, step); o < |s'.onces| && s'.onces[o].outcome == s.onces[o].outcome
  {
    assert CallerOk(cfg, s, step.c);
  }

  /** An outcome that was stored once is never replaced. */
  lemma {:induction false} OutcomeIsFinal(cfg: Config, states: seq<State>, steps: seq<Step>, i: nat, j: nat, o: nat)
    requires IsRun(cfg, states, steps) && i <= j < |states| && o < |states[i].onces| && states[i].onces[o].outcome.Some?
    ensures o < |states[j].onces| && states[j].onces[o].outcome == states[i].onces[o].outcome
    decreases j
  {
    if i < j {
      OutcomeIsFinal(cfg, states, steps, i, j - 1, o);
      RunKeepsInv(cfg, states, steps, j - 1);
      StepKeepsOutcome(cfg, states[j - 1], steps[j - 1], o);
    }
  }

  /** Every caller that waits on a once gets what its one successful call returned. */
  lemma LaterCallsSeeIt(cfg: Config, states: seq<State>, steps: seq<Step>, i: nat, j: nat)
    requires IsRun(cfg, states, steps) && i < |steps| && j < |steps| && steps[i].Finish? && steps[j].Receive?
    requires Once(states[i], steps[i].c) == Once(states[j], steps[j].c) != None
    ensures i < j && states[j + 1].callers[steps[j].c] == Returned(steps[i].outcome)
  {
    var o := states[i].callers[steps[i].c].once;
    RunKeepsInv(cfg, states, steps, i);
    assert CallerOk(cfg, states[i], steps[i].c);
    if j < i {
      OutcomeIsFinal(cfg, states, steps, j, i, o);
    }
    assert states[i + 1] == Apply(cfg, states[i], steps[i]);
    assert states[i + 1].onces[o].outcome == Some(steps[i].outcome);
    OutcomeIsFinal(cfg, states, steps, i + 1, j, o);
    assert states[j + 1] == Apply(cfg, states[j], steps[j]);
  }

  function Once(s: State, c: nat): Option<nat> {
    if c >= |s.callers| then None
    else match s.callers[c] case Waiting(o) => Some(o) case Fetching(o) => Some(o) case Won(o) => Some(o) case _ => None
  }

  /** A fetch made for exactly this request returned this token. */
  ghost predicate Fetched(cfg: Config, s: State, r: Request, token: string) {
    exists c :: 0 <= c < |cfg| && (c, token) in s.log && cfg[c] == r
  }

  ghost predicate NoSpaces(cfg: Config) {
    forall c :: 0 <= c < |cfg| ==> ' ' !in cfg[c].registry
  }

  lemma UnderIsFetched(cfg: Config, s: State, r: Request, token: string)
    requires NoSpaces(cfg) && ' ' !in r.registry && FetchedUnder(cfg, s, StatusKey(r), token)
    ensures Fetched(cfg, s, r, token)
  {
    var c :| 0 <= c < |cfg| && (c, token) in s.log && StatusKey(cfg[c]) == StatusKey(r);
    StatusKeyInjective(cfg[c], r);
  }

  /** A token that Set returns was fetched for its own registry, scheme and key. */
  lemma SetReturnsOwnToken(cfg: Config, states: seq<State>, steps: seq<Step>, i: nat, c: nat, token: string)
    requires IsRun(cfg, states, steps) && NoSpaces(cfg) && i < |states| && c < |cfg|
    requires |states[i].callers| == |cfg| && states[i].callers[c] == Returned(Token(token))
    ensures Fetched(cfg, states[i], cfg[c], token)
  {
    RunKeepsInv(cfg, states, steps, i);
    assert CallerOk(cfg, states[i], c);
    UnderIsFetched(cfg, states[i], cfg[c], token);
  }

  lemma {:induction false} EntryIsStable(cfg: Config, states: seq<State>, steps: seq<Step>, i: nat, j: nat, e: nat)
    requires IsRun(cfg, states, steps) && i <= j < |states| && e < |states[i].entries|
    ensures e < |states[j].entries|
    ensures states[j].entries[e].registry == states[i].entries[e].registry && states[j].entries[e].scheme == states[i].entries[e].scheme
    decreases j
  {
    if i < j {
      EntryIsStable(cfg, states, steps, i, j - 1, e);
      assert Enabled(cfg, states[j - 1], steps[j - 1]);
    }
  }

  /** GetToken looks up the entry of a registry at one time and the token in it at a later time; the token is the right one. */
  lemma GetTokenReturnsOwnToken(cfg: Config, states: seq<State>, steps: seq<Step>, i: nat, j: nat, r: Request)
    requires IsRun(cfg, states, steps) && NoSpaces(cfg) && ' ' !in r.registry && i <= j < |states|
    requires r.registry in states[i].cache && states[i].cache[r.registry] < |states[i].entries|
    requires states[i].entries[states[i].cache[r.registry]].scheme == r.scheme
    ensures var e := states[i].cache[r.registry];
            && e < |states[j].entries|
            && (r.key in states[j].entries[e].tokens ==> Fetched(cfg, states[j], r, states[j].entries[e].tokens[r.key]))
  {
    var e := states[i].cache[r.registry];
    RunKeepsInv(cfg, states, steps, i);
    RunKeepsInv(cfg, states, steps, j);
    EntryIsStable(cfg, states, steps, i, j, e);
    assert EntryOk(cfg, states[j], e);
    if r.key in states[j].entries[e].tokens {
      UnderIsFetched(cfg, states[j], r, states[j].entries[e].tokens[r.key]);
    }
  }

  /** What a caller still has ahead of it. */
  function Rank(phase: Phase): nat {
    match phase
    case Start => 7
    case Waiting(_) => 6
    case Fetching(_) => 5
    case Won(_) => 4
    case Caching(_) => 3
    case Replacing(_) => 2
    case Writing(_, _) => 1
    case Returned(_) => 0
    case GaveUp => 0
  }

  lemma CallerMoves(cfg: Config, s: State, step: Step)
    requires Enabled(cfg, s, step)
    ensures var s' := Apply(cfg, s, step);
            && |s'.callers| == |s.callers| && s'.callers == s.callers[step.c := s'.callers[step.c]]
            && Rank(s'.callers[step.c]) < Rank(s.callers[step.c])
  {
  }

  lemma StepLowers(cfg: Config, s: State, step: Step)
    requires Enabled(cfg, s, step)
    ensures Sum(Apply(cfg, s, step).callers, Rank) < Sum(s.callers, Rank)
  {
    var s' := Apply(cfg, s, step);
    CallerMoves(cfg, s, step);
    hide Apply, Rank;
    SumUpdate(s.callers, step.c, s'.callers[step.c], Rank);
  }

  lemma {:induction false} AllStart(n: nat, callers: seq<Phase>)
    requires |callers| == n && forall i :: 0 <= i < n ==> callers[i] == Start
    ensures Sum(callers, Rank) == 7 * n
  {
    if n > 0 {
      AllStart(n - 1, callers[..n - 1]);
    }
  }

  /** No run has more than seven steps for each call. */
  lemma {:induction false} RunsAreBounded(cfg: Config, states: seq<State>, steps: seq<Step>, i: nat)
    requires IsRun(cfg, states, steps) && i < |states|
    ensures i + Sum(states[i].callers, Rank) <= 7 * |cfg|
  {
    if i == 0 {
      AllStart(|cfg|, states[0].callers);
    } else {
      RunsAreBounded(cfg, states, steps, i - 1);
      StepLowers(cfg, states[i - 1], steps[i - 1]);
    }
  }

  ghost predicate Finished(s: State) {
    forall c :: 0 <= c < |s.callers| ==> s.callers[c].Returned? || s.callers[c].GaveUp?
  }

  ghost predicate CanProceed(cfg: Config, s: State) {
    exists step :: Enabled(cfg, s, step) && !step.GiveUp? && !step.Abort?
  }

  /** A caller that is not done can always go on, or another one can, without any context ending. */
  lemma NeverStuck(cfg: Config, s: State, c: nat)
    requires Inv(cfg, s) && c < |cfg| && !s.callers[c].Returned? && !s.callers[c].GaveUp?
    ensures CanProceed(cfg, s)
  {
    assert CallerOk(cfg, s, c);
    match s.callers[c]
    case Start => assert Enabled(cfg, s, Join(c));
    case Waiting(o) =>
      assert OnceOk(cfg, s, o);
      if s.onces[o].ready {
        assert Enabled(cfg, s, Take(c));
      } else if s.onces[o].outcome.Some? {
        assert Enabled(cfg, s, Receive(c));
      } else {
        var d :| 0 <= d < |s.callers| && s.callers[d] == Fetching(o);
        assert Enabled(cfg, s, Finish(d, Error));
      }
    case Fetching(o) => assert Enabled(cfg, s, Finish(c, Error));
    case Won(o) => assert Enabled(cfg, s, Forget(c));
    case Caching(_) => assert Enabled(cfg, s, Find(c));
    case Replacing(_) => assert Enabled(cfg, s, Replace(c));
    case Writing(_, _) => assert Enabled(cfg, s, Write(c));
  }

  /** A run that cannot be continued has answered every call. */
  lemma MaximalRunAnswersAll(cfg: Config, states: seq<State>, steps: seq<Step>)
    requires IsRun(cfg, states, steps) && !CanProceed(cfg, states[|steps|])
    ensures Finished(states[|steps|])
  {
    var s := states[|steps|];
    RunKeepsInv(cfg, states, steps, |steps|);
    forall c | 0 <= c < |s.callers| ensures s.callers[c].Returned? || s.callers[c].GaveUp? {
      if !s.callers[c].Returned? && !s.callers[c].GaveUp? {
        NeverStuck(cfg, s, c);
      }
    }
  }
}
