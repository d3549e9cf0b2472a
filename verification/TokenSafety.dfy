/** What every step of the token cache keeps, and what follows for whole runs. */
module TokenSafety {
  import opened TokenCache

  lemma FetchedGrows(cfg: Config, s: State, s': State)
    requires s.log <= s'.log
    ensures forall key, token :: FetchedUnder(cfg, s, key, token) ==> FetchedUnder(cfg, s', key, token)
  {
  }

  lemma EntriesKept(cfg: Config, s: State, s': State)
    requires s.log <= s'.log && s'.entries == s.entries && forall e :: 0 <= e < |s.entries| ==> EntryOk(cfg, s, e)
    ensures forall e :: 0 <= e < |s'.entries| ==> EntryOk(cfg, s', e)
  {
    FetchedGrows(cfg, s, s');
    hide FetchedUnder, StatusKey;
    forall e | 0 <= e < |s'.entries| ensures EntryOk(cfg, s', e) { assert EntryOk(cfg, s, e); }
  }

  lemma ExclusiveKept(s: State, s': State, c: nat)
    requires Exclusive(s) && c < |s.callers| && |s'.callers| == |s.callers| && s'.callers == s.callers[c := s'.callers[c]]
    requires s'.callers[c].Fetching? || s'.callers[c].Won? ==> forall d :: 0 <= d < |s.callers| && d != c ==> s.callers[d] != s'.callers[c]
    ensures Exclusive(s')
  {
  }

  lemma JoinKeepsInv(cfg: Config, s: State, c: nat)
    requires Inv(cfg, s) && Enabled(cfg, s, Join(c))
    ensures Inv(cfg, ApplyJoin(cfg, s, c))
  {
    var s' := ApplyJoin(cfg, s, c);
    FetchedGrows(cfg, s, s');
    EntriesKept(cfg, s, s');
    ExclusiveKept(s, s', c);
    hide FetchedUnder, StatusKey, Exclusive;
    forall o | 0 <= o < |s'.onces| ensures OnceOk(cfg, s', o) {
      if o < |s.onces| {
        assert OnceOk(cfg, s, o);
        assert s'.onces[o] == s.onces[o];
        KeepsFetcher(s, s', c, o);
      }
    }
    forall d | 0 <= d < |cfg| ensures CallerOk(cfg, s', d) { assert CallerOk(cfg, s, d); }
  }

  /** A fetcher stays one as long as only another caller, or one that is not fetching, moves. */
  lemma KeepsFetcher(s: State, s': State, c: nat, o: nat)
    requires c < |s.callers| == |s'.callers| && s'.callers == s.callers[c := s'.callers[c]]
    requires s.callers[c] != Fetching(o) || s'.callers[c] == Fetching(o)
    ensures (exists d :: 0 <= d < |s.callers| && s.callers[d] == Fetching(o)) ==> exists d :: 0 <= d < |s'.callers| && s'.callers[d] == Fetching(o)
  {
    if d :| 0 <= d < |s.callers| && s.callers[d] == Fetching(o) {
      assert s'.callers[d] == Fetching(o);
    }
  }

  lemma TakeKeepsInv(cfg: Config, s: State, c: nat)
    requires Inv(cfg, s) && Enabled(cfg, s, Take(c))
    ensures Inv(cfg, Apply(cfg, s, Take(c)))
  {
    var s' := Apply(cfg, s, Take(c));
    var o := s.callers[c].once;
    FetchedGrows(cfg, s, s');
    EntriesKept(cfg, s, s');
    hide FetchedUnder, StatusKey;
    assert CallerOk(cfg, s, c) && OnceOk(cfg, s, o);
    forall p | 0 <= p < |s'.onces| ensures OnceOk(cfg, s', p) {
      assert OnceOk(cfg, s, p);
      KeepsFetcher(s, s', c, p);
      assert s'.callers[c] == Fetching(o);
    }
    forall d | 0 <= d < |cfg| ensures CallerOk(cfg, s', d) { assert CallerOk(cfg, s, d); }
    forall d | 0 <= d < |cfg| && d != c ensures s.callers[d] != Fetching(o) { assert CallerOk(cfg, s, d); }
    ExclusiveKept(s, s', c);
  }

  /** A step that moves one caller on and changes nothing else. */
  lemma MoveKeepsInv(cfg: Config, s: State, c: nat, phase: Phase)
    requires Inv(cfg, s) && c < |cfg| && !s.callers[c].Fetching? && !phase.Fetching? && !phase.Won?
    requires CallerOk(cfg, Set(s, c, phase), c)
    ensures Inv(cfg, Set(s, c, phase))
  {
    var s' := Set(s, c, phase);
    FetchedGrows(cfg, s, s');
    EntriesKept(cfg, s, s');
    hide FetchedUnder, StatusKey;
    forall o | 0 <= o < |s'.onces| ensures OnceOk(cfg, s', o) {
      assert OnceOk(cfg, s, o);
      KeepsFetcher(s, s', c, o);
    }
    forall d | 0 <= d < |cfg| ensures CallerOk(cfg, s', d) { assert CallerOk(cfg, s, d); }
    ExclusiveKept(s, s', c);
  }

  lemma FinishKeepsInv(cfg: Config, s: State, c: nat, outcome: Outcome)
    requires Inv(cfg, s) && Enabled(cfg, s, Finish(c, outcome))
    ensures Inv(cfg, ApplyFinish(s, c, outcome))
  {
    var s' := ApplyFinish(s, c, outcome);
    var o := s.callers[c].once;
    FetchedGrows(cfg, s, s');
    EntriesKept(cfg, s, s');
    assert CallerOk(cfg, s, c) && OnceOk(cfg, s, o);
    if outcome.Token? {
      assert FetchedUnder(cfg, s', StatusKey(cfg[c]), outcome.token) by { assert (c, outcome.token) in s'.log; }
    }
    forall d | 0 <= d < |cfg| && d != c ensures s.callers[d] != Won(o) { assert CallerOk(cfg, s, d); }
    ExclusiveKept(s, s', c);
    hide FetchedUnder, StatusKey, Exclusive;
    forall p | 0 <= p < |s'.onces| ensures OnceOk(cfg, s', p) {
      assert OnceOk(cfg, s, p);
      if p != o {
        KeepsFetcher(s, s', c, p);
      }
    }
    forall d | 0 <= d < |cfg| ensures CallerOk(cfg, s', d) { assert CallerOk(cfg, s, d); }
  }

  lemma AbortKeepsInv(cfg: Config, s: State, c: nat)
    requires Inv(cfg, s) && Enabled(cfg, s, Abort(c))
    ensures Inv(cfg, ApplyAbort(s, c))
  {
    var s' := ApplyAbort(s, c);
    var o := s.callers[c].once;
    FetchedGrows(cfg, s, s');
    EntriesKept(cfg, s, s');
    hide FetchedUnder, StatusKey;
    assert CallerOk(cfg, s, c) && OnceOk(cfg, s, o);
    ExclusiveKept(s, s', c);
    assert forall d :: 0 <= d < |cfg| && s.callers[d] == s.callers[c] ==> d == c;
    hide Exclusive;
    forall p | 0 <= p < |s'.onces| ensures OnceOk(cfg, s', p) {
      assert OnceOk(cfg, s, p);
      if p != o {
        KeepsFetcher(s, s', c, p);
      }
    }
    forall d | 0 <= d < |cfg| ensures CallerOk(cfg, s', d) {
      assert CallerOk(cfg, s, d);
    }
  }

  /** The winner deletes the status entry of its own once and no other. */
  lemma ForgetKeepsInv(cfg: Config, s: State, c: nat)
    requires Inv(cfg, s) && Enabled(cfg, s, Forget(c))
    ensures Inv(cfg, ApplyForget(cfg, s, c))
  {
    var s' := ApplyForget(cfg, s, c);
    var o := s.callers[c].once;
    FetchedGrows(cfg, s, s');
    EntriesKept(cfg, s, s');
    hide FetchedUnder, StatusKey;
    assert CallerOk(cfg, s, c) && OnceOk(cfg, s, o);
    forall p | 0 <= p < |s'.onces| ensures OnceOk(cfg, s', p) {
      assert OnceOk(cfg, s, p);
      KeepsFetcher(s, s', c, p);
    }
    forall d | 0 <= d < |cfg| ensures CallerOk(cfg, s', d) {
      assert CallerOk(cfg, s, d);
      assert s.callers[d] == s.callers[c] ==> d == c;
    }
    ExclusiveKept(s, s', c);
  }

  /** Storing a new, empty entry for the registry of a caller. */
  lemma EntryKeepsInv(cfg: Config, s: State, c: nat, token: string)
    requires Inv(cfg, s) && c < |cfg| && s.callers[c] in {Caching(token), Replacing(token)}
    ensures Inv(cfg, Set(WithEntry(s, cfg[c]), c, Writing(|s.entries|, token)))
  {
    var s' := Set(WithEntry(s, cfg[c]), c, Writing(|s.entries|, token));
    FetchedGrows(cfg, s, s');
    hide FetchedUnder, StatusKey;
    forall p | 0 <= p < |s'.onces| ensures OnceOk(cfg, s', p) {
      assert OnceOk(cfg, s, p);
      KeepsFetcher(s, s', c, p);
    }
    forall e | 0 <= e < |s'.entries| ensures EntryOk(cfg, s', e) {
      if e < |s.entries| {
        assert EntryOk(cfg, s, e);
      }
    }
    forall d | 0 <= d < |cfg| ensures CallerOk(cfg, s', d) { assert CallerOk(cfg, s, d); }
    ExclusiveKept(s, s', c);
  }

  lemma WriteKeepsInv(cfg: Config, s: State, c: nat)
    requires Inv(cfg, s) && Enabled(cfg, s, Write(c))
    ensures Inv(cfg, ApplyWrite(cfg, s, c))
  {
    var s' := ApplyWrite(cfg, s, c);
    FetchedGrows(cfg, s, s');
    ExclusiveKept(s, s', c);
    hide FetchedUnder, StatusKey, Exclusive;
    assert CallerOk(cfg, s, c);
    assert cfg[c] == Request(cfg[c].registry, cfg[c].scheme, cfg[c].key);
    forall p | 0 <= p < |s'.onces| ensures OnceOk(cfg, s', p) {
      assert OnceOk(cfg, s, p);
      KeepsFetcher(s, s', c, p);
    }
    forall e | 0 <= e < |s'.entries| ensures EntryOk(cfg, s', e) { assert EntryOk(cfg, s, e); }
    forall d | 0 <= d < |cfg| ensures CallerOk(cfg, s', d) { assert CallerOk(cfg, s, d); }
  }

  lemma StepKeepsInv(cfg: Config, s: State, step: Step)
    requires Inv(cfg, s) && Enabled(cfg, s, step)
    ensures Inv(cfg, Apply(cfg, s, step))
  {
    var c := step.c;
    assert CallerOk(cfg, s, c);
    match step
    case Join(_) => JoinKeepsInv(cfg, s, c);
    case Take(_) => TakeKeepsInv(cfg, s, c);
    case Receive(_) =>
      assert OnceOk(cfg, s, s.callers[c].once);
      FetchedGrows(cfg, s, Apply(cfg, s, step));
      MoveKeepsInv(cfg, s, c, Returned(s.onces[s.callers[c].once].outcome.value));
    case GiveUp(_) => MoveKeepsInv(cfg, s, c, GaveUp);
    case Finish(_, outcome) => FinishKeepsInv(cfg, s, c, outcome);
    case Abort(_) => AbortKeepsInv(cfg, s, c);
    case Forget(_) => ForgetKeepsInv(cfg, s, c);
    case Find(_) => FindKeepsInv(cfg, s, c);
    case Replace(_) => EntryKeepsInv(cfg, s, c, s.callers[c].token);
    case Write(_) => WriteKeepsInv(cfg, s, c);
  }

  lemma FindKeepsInv(cfg: Config, s: State, c: nat)
    requires Inv(cfg, s) && Enabled(cfg, s, Find(c))
    ensures Inv(cfg, ApplyFind(cfg, s, c))
  {
    var r, token := cfg[c], s.callers[c].token;
    assert CallerOk(cfg, s, c);
    FetchedGrows(cfg, s, ApplyFind(cfg, s, c));
    if r.registry !in s.cache {
      EntryKeepsInv(cfg, s, c, token);
    } else if s.entries[s.cache[r.registry]].scheme != r.scheme {
      MoveKeepsInv(cfg, s, c, Replacing(token));
    } else {
      MoveKeepsInv(cfg, s, c, Writing(s.cache[r.registry], token));
    }
  }

  lemma {:induction false} RunKeepsInv(cfg: Config, states: seq<State>, steps: seq<Step>, i: nat)
    requires IsRun(cfg, states, steps) && i < |states|
    ensures Inv(cfg, states[i])
  {
    if i > 0 {
      RunKeepsInv(cfg, states, steps, i - 1);
      StepKeepsInv(cfg, states[i - 1], steps[i - 1]);
    }
  }
}
