/** What a caller of Set gets from its own fetch, where its token ends up, and when a later call fetches anew. */
module TokenCaching {
  import opened Descriptors
  import opened TokenCache
  import opened TokenSafety
  import opened TokenResults

  /** After its fetch the caller is on the way to returning this outcome, or has returned it. */
  ghost predicate HasOutcome(s: State, c: nat, outcome: Outcome) {
    && c < |s.callers|
    && match s.callers[c]
       case Won(o) => o < |s.onces| && s.onces[o].outcome == Some(outcome)
       case Caching(token) => outcome == Token(token)
       case Replacing(token) => outcome == Token(token)
       case Writing(_, token) => outcome == Token(token)
       case Returned(out) => out == outcome
       case _ => false
  }

  lemma OwnStepKeepsOutcome(cfg: Config, s: State, step: Step, outcome: Outcome)
    requires Enabled(cfg, s, step) && HasOutcome(s, step.c, outcome)
    ensures HasOutcome(Apply(cfg, s, step), step.c, outcome)
  {
    assert step.Forget? || step.Find? || step.Replace? || step.Write?;
    hide StatusKey;
  }

  lemma OutcomeStays(cfg: Config, s: State, step: Step, c: nat, outcome: Outcome)
    requires Inv(cfg, s) && Enabled(cfg, s, step) && HasOutcome(s, c, outcome)
    ensures HasOutcome(Apply(cfg, s, step), c, outcome)
  {
    if c == step.c {
      OwnStepKeepsOutcome(cfg, s, step, outcome);
    } else {
      CallerMoves(cfg, s, step);
      if s.callers[c].Won? {
        StepKeepsOutcome(cfg, s, step, s.callers[c].once);
      }
      hide Inv, Enabled, Apply;
    }
  }

  /** The caller whose fetch ended gets what its own fetch returned, an error included. */
  lemma {:induction false} WinnerGetsOwnOutcome(cfg: Config, states: seq<State>, steps: seq<Step>, j: nat, i: nat)
    requires IsRun(cfg, states, steps) && j < |steps| && steps[j].Finish? && j < i < |states|
    ensures HasOutcome(states[i], steps[j].c, steps[j].outcome)
  {
    assert Enabled(cfg, states[i - 1], steps[i - 1]);
    if j + 1 < i {
      WinnerGetsOwnOutcome(cfg, states, steps, j, i - 1);
      RunKeepsInv(cfg, states, steps, i - 1);
      hide Inv, Enabled, Apply, HasOutcome;
      OutcomeStays(cfg, states[i - 1], steps[i - 1], steps[j].c, steps[j].outcome);
    }
  }

  // ---- The token is cached ----

  /** GetToken for this request finds a token in this state. */
  ghost predicate IsCached(s: State, r: Request) {
    && r.registry in s.cache && s.cache[r.registry] < |s.entries|
    && s.entries[s.cache[r.registry]].scheme == r.scheme && r.key in s.entries[s.cache[r.registry]].tokens
  }

  /** The caller writes to the entry that the cache holds for its registry. */
  ghost predicate WritesToCache(cfg: Config, s: State, c: nat)
    requires c < |cfg| == |s.callers|
  {
    s.callers[c].Writing? ==> cfg[c].registry in s.cache && s.cache[cfg[c].registry] == s.callers[c].entry
  }

  ghost predicate AllWriteToCache(cfg: Config, s: State, registry: string)
    requires |cfg| == |s.callers|
  {
    forall c: nat :: c < |cfg| && cfg[c].registry == registry ==> WritesToCache(cfg, s, c)
  }

  ghost predicate Replaces(cfg: Config, step: Step, registry: string) {
    step.Replace? && step.c < |cfg| && cfg[step.c].registry == registry
  }

  lemma WritersStay(cfg: Config, s: State, step: Step, registry: string)
    requires Inv(cfg, s) && Enabled(cfg, s, step) && AllWriteToCache(cfg, s, registry) && !Replaces(cfg, step, registry)
    ensures |Apply(cfg, s, step).callers| == |cfg| && AllWriteToCache(cfg, Apply(cfg, s, step), registry)
  {
    var s' := Apply(cfg, s, step);
    if registry in s.cache {
      CacheStays(cfg, s, step, registry);
    }
    hide Inv;
    forall c: nat | c < |cfg| && cfg[c].registry == registry ensures WritesToCache(cfg, s', c) {
      assert WritesToCache(cfg, s, c);
    }
  }

  /** Only a change of the scheme takes an entry from the cache. */
  lemma CacheStays(cfg: Config, s: State, step: Step, registry: string)
    requires Enabled(cfg, s, step) && !Replaces(cfg, step, registry) && registry in s.cache
    ensures registry in Apply(cfg, s, step).cache && Apply(cfg, s, step).cache[registry] == s.cache[registry]
  {
  }

  lemma EntryStays(cfg: Config, s: State, step: Step, e: nat, key: string)
    requires Enabled(cfg, s, step) && e < |s.entries| && key in s.entries[e].tokens
    ensures var s' := Apply(cfg, s, step);
            e < |s'.entries| && s'.entries[e].scheme == s.entries[e].scheme && key in s'.entries[e].tokens
  {
  }

  lemma CachedStays(cfg: Config, s: State, step: Step, r: Request)
    requires Enabled(cfg, s, step) && !Replaces(cfg, step, r.registry) && IsCached(s, r)
    ensures IsCached(Apply(cfg, s, step), r)
  {
    CacheStays(cfg, s, step, r.registry);
    EntryStays(cfg, s, step, s.cache[r.registry], r.key);
    hide Enabled, Apply;
  }

  lemma WriteCaches(cfg: Config, s: State, c: nat)
    requires Inv(cfg, s) && Enabled(cfg, s, Write(c)) && AllWriteToCache(cfg, s, cfg[c].registry)
    ensures IsCached(Apply(cfg, s, Write(c)), cfg[c])
    ensures var s' := Apply(cfg, s, Write(c)); s'.callers[c] == Returned(Token(s'.entries[s'.cache[cfg[c].registry]].tokens[cfg[c].key]))
  {
    assert CallerOk(cfg, s, c) && WritesToCache(cfg, s, c);
    hide Inv;
  }

  ghost predicate NoReplace(cfg: Config, steps: seq<Step>, registry: string, i: nat) {
    forall j :: 0 <= j < i && j < |steps| ==> !Replaces(cfg, steps[j], registry)
  }

  lemma {:induction false} WritersToCache(cfg: Config, states: seq<State>, steps: seq<Step>, i: nat, registry: string)
    requires IsRun(cfg, states, steps) && i < |states| && NoReplace(cfg, steps, registry, i)
    ensures |states[i].callers| == |cfg| && AllWriteToCache(cfg, states[i], registry)
  {
    if i > 0 {
      WritersToCache(cfg, states, steps, i - 1, registry);
      RunKeepsInv(cfg, states, steps, i - 1);
      assert Enabled(cfg, states[i - 1], steps[i - 1]);
      hide Inv, Enabled, Apply, AllWriteToCache, Replaces;
      WritersStay(cfg, states[i - 1], steps[i - 1], registry);
    }
  }

  /** A token that was written stays in the cache, as long as nobody changes the scheme of the registry. */
  lemma {:induction false} WinnerIsCached(cfg: Config, states: seq<State>, steps: seq<Step>, j: nat, i: nat)
    requires IsRun(cfg, states, steps) && j < |steps| && steps[j].Write? && j < i < |states| && steps[j].c < |cfg|
    requires NoReplace(cfg, steps, cfg[steps[j].c].registry, i)
    ensures IsCached(states[i], cfg[steps[j].c])
  {
    assert Enabled(cfg, states[i - 1], steps[i - 1]);
    if i == j + 1 {
      RunKeepsInv(cfg, states, steps, j);
      WritersToCache(cfg, states, steps, j, cfg[steps[j].c].registry);
      hide Inv, Enabled, Apply, AllWriteToCache, IsCached;
      WriteCaches(cfg, states[j], steps[j].c);
    } else {
      WinnerIsCached(cfg, states, steps, j, i - 1);
      hide Enabled, Apply, IsCached, Replaces;
      CachedStays(cfg, states[i - 1], steps[i - 1], cfg[steps[j].c]);
    }
  }

  /** The caller has fetched a token and has still to cache it. */
  ghost predicate HasToCache(s: State, c: nat) {
    && c < |s.callers|
    && match s.callers[c]
       case Won(o) => o < |s.onces| && s.onces[o].outcome.Some? && s.onces[o].outcome.value.Token?
       case Caching(_) => true
       case Replacing(_) => true
       case Writing(_, _) => true
       case _ => false
  }

  lemma CachesOrWrites(cfg: Config, s: State, step: Step, c: nat)
    requires Inv(cfg, s) && Enabled(cfg, s, step) && HasToCache(s, c) && step != Write(c)
    ensures HasToCache(Apply(cfg, s, step), c)
  {
    if s.callers[c].Won? {
      StepKeepsOutcome(cfg, s, step, s.callers[c].once);
    }
    CallerMoves(cfg, s, step);
    hide Inv, StatusKey;
  }

  /** Before state i, and after step j, the caller wrote its token. */
  ghost predicate Wrote(steps: seq<Step>, j: nat, i: nat, c: nat) {
    exists k :: j < k < i && k < |steps| && steps[k] == Write(c)
  }

  lemma {:induction false} FetchedThenWrites(cfg: Config, states: seq<State>, steps: seq<Step>, j: nat, i: nat)
    requires IsRun(cfg, states, steps) && j < |steps| && steps[j].Finish? && steps[j].outcome.Token? && j < i < |states|
    ensures HasToCache(states[i], steps[j].c) || Wrote(steps, j, i, steps[j].c)
  {
    assert Enabled(cfg, states[i - 1], steps[i - 1]);
    if j + 1 < i {
      FetchedThenWrites(cfg, states, steps, j, i - 1);
      RunKeepsInv(cfg, states, steps, i - 1);
      hide Inv, Enabled, Apply, HasToCache;
      if HasToCache(states[i - 1], steps[j].c) && steps[i - 1] != Write(steps[j].c) {
        CachesOrWrites(cfg, states[i - 1], steps[i - 1], steps[j].c);
      }
    }
  }

  /** A caller that fetched a token and has returned has cached it: GetToken finds one for the request from then on, as long as nobody changes the scheme of the registry. */
  lemma FetchedIsCached(cfg: Config, states: seq<State>, steps: seq<Step>, j: nat, i: nat)
    requires IsRun(cfg, states, steps) && j < |steps| && steps[j].Finish? && steps[j].outcome.Token? && j < i < |states|
    requires steps[j].c < |cfg| && steps[j].c < |states[i].callers| && states[i].callers[steps[j].c].Returned?
    requires NoReplace(cfg, steps, cfg[steps[j].c].registry, i)
    ensures IsCached(states[i], cfg[steps[j].c])
  {
    FetchedThenWrites(cfg, states, steps, j, i);
    var k :| j < k < i && k < |steps| && steps[k] == Write(steps[j].c);
    WinnerIsCached(cfg, states, steps, k, i);
  }

  /** All calls for a registry use one scheme. */
  ghost predicate OneScheme(cfg: Config, registry: string) {
    forall c: nat, d: nat :: c < |cfg| && d < |cfg| && cfg[c].registry == registry == cfg[d].registry ==> cfg[c].scheme == cfg[d].scheme
  }

  /** The entry cached for the registry has the scheme that its calls use, and nobody is about to replace it. */
  ghost predicate SchemeOk(cfg: Config, s: State, registry: string) {
    && (forall c: nat :: c < |cfg| && cfg[c].registry == registry && registry in s.cache && s.cache[registry] < |s.entries| ==>
          s.entries[s.cache[registry]].scheme == cfg[c].scheme)
    && (forall c: nat :: c < |cfg| && c < |s.callers| && cfg[c].registry == registry ==> !s.callers[c].Replacing?)
  }

  lemma StepKeepsScheme(cfg: Config, s: State, step: Step, registry: string)
    requires Inv(cfg, s) && Enabled(cfg, s, step) && OneScheme(cfg, registry) && SchemeOk(cfg, s, registry)
    ensures SchemeOk(cfg, Apply(cfg, s, step), registry) && !Replaces(cfg, step, registry)
  {
    hide OnceOk, EntryOk, CallerOk, Exclusive;
  }

  lemma {:induction false} OneSchemeNeverReplaces(cfg: Config, states: seq<State>, steps: seq<Step>, i: nat, registry: string)
    requires IsRun(cfg, states, steps) && i < |states| && OneScheme(cfg, registry)
    ensures SchemeOk(cfg, states[i], registry) && NoReplace(cfg, steps, registry, i)
  {
    if i > 0 {
      OneSchemeNeverReplaces(cfg, states, steps, i - 1, registry);
      RunKeepsInv(cfg, states, steps, i - 1);
      assert Enabled(cfg, states[i - 1], steps[i - 1]);
      hide Inv, Enabled, Apply, SchemeOk, OneScheme, Replaces;
      StepKeepsScheme(cfg, states[i - 1], steps[i - 1], registry);
    }
  }

  /** With one scheme per registry a fetched token is never lost from the cache. */
  lemma OneSchemeKeepsTokens(cfg: Config, states: seq<State>, steps: seq<Step>, j: nat, i: nat)
    requires IsRun(cfg, states, steps) && j < |steps| && steps[j].Finish? && steps[j].outcome.Token? && j < i < |states|
    requires steps[j].c < |cfg| && steps[j].c < |states[i].callers| && states[i].callers[steps[j].c].Returned?
    requires OneScheme(cfg, cfg[steps[j].c].registry)
    ensures IsCached(states[i], cfg[steps[j].c])
  {
    OneSchemeNeverReplaces(cfg, states, steps, i, cfg[steps[j].c].registry);
    FetchedIsCached(cfg, states, steps, j, i);
  }

  // ---- A later call fetches anew ----

  /** No caller finds a once older than this under the key. */
  ghost predicate OnlyNewer(s: State, key: string, n: nat) {
    n <= |s.onces| && (key in s.status ==> s.status[key] >= n)
  }

  lemma StaysNewer(cfg: Config, s: State, step: Step, key: string, n: nat)
    requires Enabled(cfg, s, step) && OnlyNewer(s, key, n)
    ensures OnlyNewer(Apply(cfg, s, step), key, n)
  {
  }

  lemma {:induction false} ForgottenStays(cfg: Config, states: seq<State>, steps: seq<Step>, j: nat, i: nat)
    requires IsRun(cfg, states, steps) && j < |steps| && steps[j].Forget? && steps[j].c < |cfg| && j < i < |states|
    ensures OnlyNewer(states[i], StatusKey(cfg[steps[j].c]), |states[j].onces|)
  {
    assert Enabled(cfg, states[i - 1], steps[i - 1]);
    hide StatusKey;
    if j + 1 < i {
      ForgottenStays(cfg, states, steps, j, i - 1);
      hide Enabled, Apply, OnlyNewer;
      StaysNewer(cfg, states[i - 1], steps[i - 1], StatusKey(cfg[steps[j].c]), |states[j].onces|);
    }
  }

  /** Once the winner of a fetch has forgotten it, a call for the same key waits on a fetch that starts later. */
  lemma LaterSetFetchesAnew(cfg: Config, states: seq<State>, steps: seq<Step>, j: nat, i: nat)
    requires IsRun(cfg, states, steps) && j < i < |steps| && steps[j].Forget? && steps[i].Join? && steps[j].c < |cfg| && steps[i].c < |cfg|
    requires StatusKey(cfg[steps[i].c]) == StatusKey(cfg[steps[j].c])
    ensures steps[i].c < |states[i + 1].callers| && states[i + 1].callers[steps[i].c].Waiting?
    ensures states[i + 1].callers[steps[i].c].once >= |states[j].onces|
  {
    ForgottenStays(cfg, states, steps, j, i);
    assert Enabled(cfg, states[i], steps[i]) && states[i + 1] == Apply(cfg, states[i], steps[i]);
    hide StatusKey, IsRun;
  }

  // ---- Contexts that end ----

  /** A caller that waits for another's fetch can leave at once, and its going changes nothing for the others. */
  lemma WaitingCanLeave(cfg: Config, s: State, c: nat) returns (step: Step)
    requires Inv(cfg, s) && c < |cfg| && s.callers[c].Waiting?
    ensures Enabled(cfg, s, step) && Apply(cfg, s, step) == s.(callers := s.callers[c := GaveUp])
  {
    step := GiveUp(c);
  }

  /** A fetch that is cancelled leaves the next waiting caller free to fetch. */
  lemma CancelledFetchPassesOn(cfg: Config, s: State, c: nat, d: nat) returns (step: Step)
    requires Inv(cfg, s) && c < |cfg| && d < |cfg| && s.callers[c].Fetching? && s.callers[d] == Waiting(s.callers[c].once)
    ensures Enabled(cfg, s, step)
    ensures var s' := Apply(cfg, s, step); s'.callers[c] == GaveUp && Enabled(cfg, s', Take(d)) && Apply(cfg, s', Take(d)).callers[d].Fetching?
  {
    assert CallerOk(cfg, s, c);
    step := Abort(c);
  }
}
