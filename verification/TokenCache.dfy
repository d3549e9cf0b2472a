/**
 The concurrent token cache as a state machine: callers of Set share one in-flight fetch per status key through a
 Once, and the winner of a fetch stores its token.  A step is one channel operation, one operation on a concurrent map
 or the end of one fetch, so a run is one interleaving of the callers.
 */
module TokenCache {
  import opened Descriptors
  import opened Strings

  datatype Scheme = Unknown | Basic | Bearer

  datatype Request = Request(registry: string, scheme: Scheme, key: string)

  function SchemeName(s: Scheme): string {
    match s case Unknown => "Unknown" case Basic => "Basic" case Bearer => "Bearer"
  }

  function StatusKey(r: Request): string {
    r.registry + [' '] + (SchemeName(r.scheme) + [' '] + r.key)
  }

  /** Registry names hold no space, so different requests never share a status key. */
  lemma StatusKeyInjective(a: Request, b: Request)
    requires ' ' !in a.registry && ' ' !in b.registry && StatusKey(a) == StatusKey(b)
    ensures a == b
  {
    CutUnique(a.registry, b.registry, SchemeName(a.scheme) + [' '] + a.key, SchemeName(b.scheme) + [' '] + b.key);
    CutUnique(SchemeName(a.scheme), SchemeName(b.scheme), a.key, b.key);
    assert SchemeName(a.scheme)[1] == SchemeName(b.scheme)[1];
  }

  lemma CutUnique(a: string, b: string, x: string, y: string)
    requires ' ' !in a && ' ' !in b && a + [' '] + x == b + [' '] + y
    ensures a == b && x == y
  {
    IndexAt(a, ' ', x);
    IndexAt(b, ' ', y);
    var s, t := a + [' '] + x, b + [' '] + y;
    assert a == s[..|a|] && b == t[..|b|];
    assert x == s[|a| + 1..] && y == t[|b| + 1..];
  }

  /** What a fetch that is neither cancelled nor panicking returns. */
  datatype Outcome = Token(token: string) | Error

  /** A token in the status channel lets one caller run its fetch; a stored outcome closes the channel. */
  datatype Once = Once(key: string, ready: bool, outcome: Option<Outcome>)

  datatype Entry = Entry(registry: string, scheme: Scheme, tokens: map<string, string>)

  datatype Phase =
    | Start
    | Waiting(once: nat)
    | Fetching(once: nat)
    | Won(once: nat)                        // stored the outcome, about to delete the status entry
    | Caching(token: string)                // about to look up the cache entry of the registry
    | Replacing(token: string)              // found an entry of another scheme, about to store a new one
    | Writing(entry: nat, token: string)    // about to store the token in an entry
    | Returned(outcome: Outcome)
    | GaveUp                                // its context ended while it waited, or its fetch was cancelled or panicked

  /** `log` records which caller's fetch returned which token. */
  datatype State = State(
    callers: seq<Phase>,
    onces: seq<Once>,
    status: map<string, nat>,
    entries: seq<Entry>,
    cache: map<string, nat>,
    log: set<(nat, string)>)

  type Config = seq<Request>

  function Init(cfg: Config): State {
    State(seq(|cfg|, _ => Start), [], map[], [], map[], {})
  }

  datatype Step =
    | Join(c: nat)
    | Take(c: nat)
    | Receive(c: nat)
    | GiveUp(c: nat)
    | Finish(c: nat, outcome: Outcome)
    | Abort(c: nat)                         // the fetch is cancelled or panics
    | Forget(c: nat)
    | Find(c: nat)
    | Replace(c: nat)
    | Write(c: nat)

  /** The once a caller is at exists. */
  predicate At(s: State, o: nat) {
    o < |s.onces|
  }

  predicate Enabled(cfg: Config, s: State, step: Step) {
    && |s.callers| == |cfg| && step.c < |cfg|
    && var phase := s.callers[step.c];
       match step
       case Join(_) => phase.Start?
       case Take(_) => phase.Waiting? && At(s, phase.once) && s.onces[phase.once].ready
       case Receive(_) => phase.Waiting? && At(s, phase.once) && s.onces[phase.once].outcome.Some?
       case GiveUp(_) => phase.Waiting?
       case Finish(_, _) => phase.Fetching? && At(s, phase.once)
       case Abort(_) => phase.Fetching? && At(s, phase.once)
       case Forget(_) => phase.Won? && At(s, phase.once) && s.onces[phase.once].outcome.Some?
       case Find(_) => phase.Caching? && (cfg[step.c].registry in s.cache ==> s.cache[cfg[step.c].registry] < |s.entries|)
       case Replace(_) => phase.Replacing?
       case Write(_) => phase.Writing? && phase.entry < |s.entries|
  }

  function Set(s: State, c: nat, phase: Phase): State
    requires c < |s.callers|
  {
    s.(callers := s.callers[c := phase])
  }

  function SetOnce(s: State, o: nat, once: Once): State
    requires At(s, o)
  {
    s.(onces := s.onces[o := once])
  }

  function ApplyJoin(cfg: Config, s: State, c: nat): State
    requires c < |cfg| == |s.callers|
  {
    var key := StatusKey(cfg[c]);
    if key in s.status then Set(s, c, Waiting(s.status[key]))
    else Set(s.(onces := s.onces + [Once(key, true, None)], status := s.status[key := |s.onces|]), c, Waiting(|s.onces|))
  }

  /** The outcome is stored and the channel closed. */
  function ApplyFinish(s: State, c: nat, outcome: Outcome): State
    requires c < |s.callers| && s.callers[c].Fetching? && At(s, s.callers[c].once)
  {
    var o := s.callers[c].once;
    var s1 := SetOnce(s, o, s.onces[o].(outcome := Some(outcome)));
    Set(s1.(log := if outcome.Token? then s.log + {(c, outcome.token)} else s.log), c, Won(o))
  }

  /** The token goes back into the channel. */
  function ApplyAbort(s: State, c: nat): State
    requires c < |s.callers| && s.callers[c].Fetching? && At(s, s.callers[c].once)
  {
    var o := s.callers[c].once;
    Set(SetOnce(s, o, s.onces[o].(ready := true)), c, GaveUp)
  }

  function ApplyForget(cfg: Config, s: State, c: nat): State
    requires c < |cfg| == |s.callers| && s.callers[c].Won? && At(s, s.callers[c].once) && s.onces[s.callers[c].once].outcome.Some?
  {
    var outcome := s.onces[s.callers[c].once].outcome.value;
    Set(s.(status := s.status - {StatusKey(cfg[c])}), c, if outcome.Token? then Caching(outcome.token) else Returned(Error))
  }

  function WithEntry(s: State, r: Request): State {
    s.(entries := s.entries + [Entry(r.registry, r.scheme, map[])], cache := s.cache[r.registry := |s.entries|])
  }

  function ApplyFind(cfg: Config, s: State, c: nat): State
    requires c < |cfg| == |s.callers| && s.callers[c].Caching?
    requires cfg[c].registry in s.cache ==> s.cache[cfg[c].registry] < |s.entries|
  {
    var r, token := cfg[c], s.callers[c].token;
    if r.registry !in s.cache then Set(WithEntry(s, r), c, Writing(|s.entries|, token))
    else if s.entries[s.cache[r.registry]].scheme != r.scheme then Set(s, c, Replacing(token))
    else Set(s, c, Writing(s.cache[r.registry], token))
  }

  function ApplyWrite(cfg: Config, s: State, c: nat): State
    requires c < |cfg| == |s.callers| && s.callers[c].Writing? && s.callers[c].entry < |s.entries|
  {
    var e, token := s.callers[c].entry, s.callers[c].token;
    var entry := s.entries[e];
    Set(s.(entries := s.entries[e := entry.(tokens := entry.tokens[cfg[c].key := token])]), c, Returned(Token(token)))
  }

  function Apply(cfg: Config, s: State, step: Step): State
    requires Enabled(cfg, s, step)
  {
    var c := step.c;
    var phase := s.callers[c];
    match step
    case Join(_) => ApplyJoin(cfg, s, c)
    case Take(_) => Set(SetOnce(s, phase.once, s.onces[phase.once].(ready := false)), c, Fetching(phase.once))
    case Receive(_) => Set(s, c, Returned(s.onces[phase.once].outcome.value))
    case GiveUp(_) => Set(s, c, GaveUp)
    case Finish(_, outcome) => ApplyFinish(s, c, outcome)
    case Abort(_) => ApplyAbort(s, c)
    case Forget(_) => ApplyForget(cfg, s, c)
    case Find(_) => ApplyFind(cfg, s, c)
    case Replace(_) => Set(WithEntry(s, cfg[c]), c, Writing(|s.entries|, phase.token))
    case Write(_) => ApplyWrite(cfg, s, c)
  }

  ghost predicate IsRun(cfg: Config, states: seq<State>, steps: seq<Step>) {
    && |states| == |steps| + 1
    && states[0] == Init(cfg)
    && forall i :: 0 <= i < |steps| ==> Enabled(cfg, states[i], steps[i]) && states[i + 1] == Apply(cfg, states[i], steps[i])
  }

  /** A fetch for the given status key returned this token. */
  ghost predicate FetchedUnder(cfg: Config, s: State, key: string, token: string) {
    exists c :: 0 <= c < |cfg| && (c, token) in s.log && StatusKey(cfg[c]) == key
  }

  ghost predicate OnceOk(cfg: Config, s: State, o: nat)
    requires o < |s.onces|
  {
    var once := s.onces[o];
    && (once.outcome.Some? ==> !once.ready)
    && (once.outcome.None? ==> once.key in s.status && s.status[once.key] == o)
    && (once.outcome.Some? && once.outcome.value.Token? ==> FetchedUnder(cfg, s, once.key, once.outcome.value.token))
    && (!once.ready && once.outcome.None? ==> exists c :: 0 <= c < |s.callers| && s.callers[c] == Fetching(o))
  }

  ghost predicate EntryOk(cfg: Config, s: State, e: nat)
    requires e < |s.entries|
  {
    var entry := s.entries[e];
    forall key :: key in entry.tokens ==> FetchedUnder(cfg, s, StatusKey(Request(entry.registry, entry.scheme, key)), entry.tokens[key])
  }

  ghost predicate OnceOf(cfg: Config, s: State, c: nat, o: nat)
    requires c < |cfg|
  {
    o < |s.onces| && s.onces[o].key == StatusKey(cfg[c])
  }

  ghost predicate CallerOk(cfg: Config, s: State, c: nat)
    requires c < |cfg| == |s.callers|
  {
    match s.callers[c]
    case Waiting(o) => OnceOf(cfg, s, c, o)
    case Fetching(o) => OnceOf(cfg, s, c, o) && !s.onces[o].ready && s.onces[o].outcome.None?
    case Won(o) => OnceOf(cfg, s, c, o) && s.onces[o].outcome.Some? && s.onces[o].key in s.status && s.status[s.onces[o].key] == o
    case Caching(token) => FetchedUnder(cfg, s, StatusKey(cfg[c]), token)
    case Replacing(token) => FetchedUnder(cfg, s, StatusKey(cfg[c]), token)
    case Writing(e, token) =>
      && FetchedUnder(cfg, s, StatusKey(cfg[c]), token)
      && e < |s.entries| && s.entries[e].registry == cfg[c].registry && s.entries[e].scheme == cfg[c].scheme
    case Returned(outcome) => outcome.Token? ==> FetchedUnder(cfg, s, StatusKey(cfg[c]), outcome.token)
    case _ => true
  }

  /** Callers that hold the same once are not both fetching, and not both its winner. */
  ghost predicate Exclusive(s: State) {
    && (forall c, d :: 0 <= c < |s.callers| && 0 <= d < |s.callers| && s.callers[c].Fetching? && s.callers[c] == s.callers[d] ==> c == d)
    && (forall c, d :: 0 <= c < |s.callers| && 0 <= d < |s.callers| && s.callers[c].Won? && s.callers[c] == s.callers[d] ==> c == d)
  }

  ghost predicate Inv(cfg: Config, s: State) {
    && |s.callers| == |cfg|
    && (forall key :: key in s.status ==> s.status[key] < |s.onces| && s.onces[s.status[key]].key == key)
    && (forall r :: r in s.cache ==> s.cache[r] < |s.entries| && s.entries[s.cache[r]].registry == r)
    && (forall o :: 0 <= o < |s.onces| ==> OnceOk(cfg, s, o))
    && (forall e :: 0 <= e < |s.entries| ==> EntryOk(cfg, s, e))
    && (forall c :: 0 <= c < |cfg| ==> CallerOk(cfg, s, c))
    && Exclusive(s)
  }
}
