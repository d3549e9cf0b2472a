/** A conflict lets a cascading delete fail: orders that make a key come into the queue twice, and the exact condition. */
module DeleteFailures {
  import opened Descriptors
  import opened GraphMemory
  import opened Reachability
  import opened Sequences
  import opened Cascades
  import opened DeleteOrders

  /** y goes in round j. */
  ghost predicate GoesIn(l: Layout, j: nat, y: Key) {
    y in Rounds(l, j) && y !in Before(l, j)
  }

  /** A key that goes in a round, but not as an orphan, goes because its subject went one round earlier. */
  lemma SubjectWent(l: Layout, j: nat, y: Key) returns (s: Key)
    requires j > 0 && GoesIn(l, j, y) && !ByOrphan(l, Rounds(l, j - 1), y)
    ensures y in l.nodes && IsReferrer(l.contents, y, s) && GoesIn(l, j - 1, s)
    ensures j > 1 ==> !ByOrphan(l, Rounds(l, j - 2), s)
  {
    assert y in Next(l, Rounds(l, j - 1));
    s :| s in Rounds(l, j - 1) && IsReferrer(l.contents, y, s);
    ReferrerLists(l.contents, y, s);
    if j > 1 {
      RoundsGrow(l, j - 2, j - 1);
      assert s !in Rounds(l, j - 2);
    }
  }

  // ---- Repetitions ----

  lemma RepeatedAcross(s: seq<Key>, t: seq<Key>, x: Key)
    requires x in s && x in t
    ensures !NoDuplicates(s + t)
  {
    var i :| 0 <= i < |s| && s[i] == x;
    var j :| 0 <= j < |t| && t[j] == x;
    DuplicateAt(s + t, i, |s| + j);
  }

  lemma RepeatedBehind(s: seq<Key>, t: seq<Key>)
    requires !NoDuplicates(t)
    ensures !NoDuplicates(s + t)
  {
    var i, j :| 0 <= i < j < |t| && t[i] == t[j];
    DuplicateAt(s + t, |s| + i, |s| + j);
  }

  /** A turn that queues what is queued already, or queues a key for both reasons. */
  lemma TurnRepeats(l: Layout, a: Stage, b: Stage, x: Key)
    requires Turn(l, a, b)
    requires
      var byReferrer, byOrphan := x in ReferrersOf(l, a.gone, a.queue[0]), x in OrphansOf(l, a.gone, a.queue[0]);
      (x in a.queue[1..] && (byReferrer || byOrphan)) || (byReferrer && byOrphan)
    ensures Twice(b)
  {
    var refs, orphans :| Queues(l, a, refs, orphans, b);
    if x in a.queue[1..] {
      assert x in refs + orphans;
      RepeatedAcross(a.queue[1..], refs + orphans, x);
    } else {
      RepeatedAcross(refs, orphans, x);
      RepeatedBehind(a.queue[1..], refs + orphans);
    }
  }

  lemma NewOrphan(l: Layout, gone: set<Key>, h: Key, x: Key)
    requires !ByOrphan(l, gone, x) && ByOrphan(l, gone + {h}, x) && h !in gone && x !in gone
    ensures x in OrphansOf(l, gone, h)
  {
    OrphanedBy(l.contents, l.nodes, gone, h, x);
  }

  // ---- Running a phase ----

  /** A round is about to begin, with y at the head of the queue. */
  ghost predicate BeginsWith(l: Layout, j: nat, st: Stage, y: Key) {
    st.gone == Before(l, j) && Phase(l, j, st, |st.queue|) && st.queue != [] && st.queue[0] == y
  }

  ghost predicate CanBeginWith(l: Layout, j: nat, y: Key) {
    exists n: nat, st :: Reachable(l, n, st) && BeginsWith(l, j, st, y)
  }

  /** One arbitrary turn within a phase: it fails, repeats a key, or goes on. */
  lemma Advance(l: Layout, n: nat, k: nat, st: Stage, m: nat) returns (next: Stage)
    requires Reachable(l, n, st) && Phase(l, k, st, m) && m > 0
    ensures MayFail(l) || (Reachable(l, n + 1, next) && Turn(l, st, next) && Phase(l, k, next, m - 1) && !Twice(next))
    ensures MayFail(l) || (next.gone == st.gone + {st.queue[0]} && st.queue[1..] <= next.queue)
  {
    if Fails(l, st) {
      assert FailsAt(l, n, st);
      next := st;
    } else {
      next := AnyTurn(l, st);
      Arrive(l, n, k, st, m, next);
    }
  }

  lemma Arrive(l: Layout, n: nat, k: nat, st: Stage, m: nat, next: Stage)
    requires Reachable(l, n, st) && Phase(l, k, st, m) && m > 0 && Turn(l, st, next)
    ensures MayFail(l) || (Reachable(l, n + 1, next) && Phase(l, k, next, m - 1) && !Twice(next))
    ensures next.gone == st.gone + {st.queue[0]} && st.queue[1..] <= next.queue
  {
    hide Phase, Twice, MayFail;
    TurnTakesHead(l, st, next);
    TurnReaches(l, n, st, next);
    if Twice(next) {
      TwiceFails(l, n + 1, next);
    } else {
      PhaseStep(l, k, st, m, next);
    }
  }

  lemma {:induction false} FinishWith(l: Layout, n: nat, k: nat, st: Stage, m: nat, y: Key)
    requires Reachable(l, n, st) && Phase(l, k, st, m) && m < |st.queue| && st.queue[m] == y
    ensures MayFail(l) || CanBeginWith(l, k + 1, y)
    decreases m
  {
    hide Phase, Twice, MayFail, Reachable, Turn, Rounds;
    if m == 0 {
      PhaseEnds(l, k, st);
      assert BeginsWith(l, k + 1, st, y);
    } else {
      var next := Advance(l, n, k, st, m);
      if !MayFail(l) {
        assert next.queue[m - 1] == st.queue[1..][m - 1];
        FinishWith(l, n + 1, k, next, m - 1, y);
      }
    }
  }

  // ---- Making the subject come first ----

  lemma FirstOf(l: Layout, st: Stage, y: Key) returns (refs: seq<Key>)
    requires st.queue != [] && y in ReferrersOf(l, st.gone, st.queue[0])
    ensures Enumerates(refs, ReferrersOf(l, st.gone, st.queue[0])) && refs != [] && refs[0] == y
  {
    refs := [y] + InSomeOrder(ReferrersOf(l, st.gone, st.queue[0]) - {y});
  }

  /** Any key that goes as a referrer can be made to come first in its round. */
  lemma {:induction false} CanComeFirst(l: Layout, j: nat, y: Key)
    requires GoesIn(l, j, y) && (j > 0 ==> !ByOrphan(l, Rounds(l, j - 1), y))
    ensures MayFail(l) || CanBeginWith(l, j, y)
    decreases j
  {
    if j == 0 {
      PhaseStarts(l);
      assert BeginsWith(l, 0, Stage({}, [l.target]), y);
      assert Reachable(l, 0, Stage({}, [l.target]));
    } else {
      var s := SubjectWent(l, j, y);
      CanComeFirst(l, j - 1, s);
      if !MayFail(l) {
        var n: nat, st :| Reachable(l, n, st) && BeginsWith(l, j - 1, st, s);
        ThenFirst(l, n, j - 1, st, s, y);
      }
    }
  }

  lemma IsWaitingReferrer(l: Layout, k: nat, st: Stage, m: nat, y: Key)
    requires Phase(l, k, st, m) && m > 0 && y in l.nodes && IsReferrer(l.contents, y, st.queue[0]) && y !in Rounds(l, k)
    ensures y in ReferrersOf(l, st.gone, st.queue[0])
  {
  }

  lemma FailsNow(l: Layout, n: nat, st: Stage)
    requires Reachable(l, n, st) && Fails(l, st)
    ensures MayFail(l)
  {
    assert FailsAt(l, n, st);
  }

  lemma ThenFirst(l: Layout, n: nat, k: nat, st: Stage, s: Key, y: Key)
    requires Reachable(l, n, st) && BeginsWith(l, k, st, s) && y in l.nodes && IsReferrer(l.contents, y, s) && y !in Rounds(l, k)
    ensures MayFail(l) || CanBeginWith(l, k + 1, y)
  {
    hide Phase, Twice, MayFail, Reachable, Turn, Rounds, Fails, ReferrersOf, OrphansOf, CanBeginWith, Before, IsReferrer;
    if Fails(l, st) {
      FailsNow(l, n, st);
    } else {
      IsWaitingReferrer(l, k, st, |st.queue|, y);
      var refs := FirstOf(l, st, y);
      var next := TurnWith(l, st, refs);
      Arrive(l, n, k, st, |st.queue|, next);
      if !MayFail(l) {
        assert next.queue[|st.queue| - 1] == y;
        FinishWith(l, n + 1, k, next, |st.queue| - 1, y);
      }
    }
  }

  lemma StillQueued(l: Layout, j: nat, st: Stage, y: Key, x: Key)
    requires BeginsWith(l, j, st, y) && GoesIn(l, j, x) && x != y
    ensures x in st.queue[1..] && x !in st.gone
  {
    assert st.queue[..|st.queue|] == st.queue;
    assert st.queue == [y] + st.queue[1..];
  }

  /** x is queued as an orphan when its subject s goes. */
  lemma FirstFails(l: Layout, k: nat, x: Key, s: Key)
    requires Acyclic(Lists(l.contents)) && x in l.nodes && IsReferrer(l.contents, x, s)
    requires GoesIn(l, k + 1, x) && GoesIn(l, k + 1, s)
    ensures MayFail(l)
  {
    ReferrerLists(l.contents, x, s);
    CanComeFirst(l, k + 1, s);
    if !MayFail(l) {
      var n: nat, st :| Reachable(l, n, st) && BeginsWith(l, k + 1, st, s);
      StillQueued(l, k + 1, st, s, x);
      NoSelfLoops(l.contents, x);
      hide Phase, Twice, MayFail, Reachable, Turn, Rounds;
      assert x in ReferrersOf(l, st.gone, s);
      var next := Advance(l, n, k + 1, st, |st.queue|);
      if !MayFail(l) {
        TurnRepeats(l, st, next, x);
      }
    }
  }

  // ---- Subject and last lister going in the same round ----

  ghost predicate BothWent(l: Layout, gone: set<Key>, x: Key, s: Key) {
    s in gone && ByOrphan(l, gone, x)
  }

  lemma BothQueue(l: Layout, k: nat, a: Stage, m: nat, b: Stage, x: Key, s: Key)
    requires Phase(l, k, a, m) && m > 0 && Turn(l, a, b) && b.gone == a.gone + {a.queue[0]} && a.queue[0] !in a.gone
    requires x in l.nodes && x !in Rounds(l, k) && IsReferrer(l.contents, x, s)
    requires !BothWent(l, a.gone, x, s) && BothWent(l, b.gone, x, s)
    ensures Twice(b)
  {
    var h := a.queue[0];
    assert x !in a.gone;
    if s in a.gone || ByOrphan(l, a.gone, x) {
      assert x in Next(l, a.gone);
      assert x in a.queue[m..];
      assert a.queue[1..][m - 1..] == a.queue[m..];
      assert x in a.queue[1..];
    }
    if !ByOrphan(l, a.gone, x) {
      NewOrphan(l, a.gone, h, x);
    }
    TurnRepeats(l, a, b, x);
  }

  lemma {:induction false} TieRuns(l: Layout, n: nat, k: nat, st: Stage, m: nat, x: Key, s: Key)
    requires Reachable(l, n, st) && Phase(l, k, st, m)
    requires x in l.nodes && x !in Rounds(l, k) && IsReferrer(l.contents, x, s) && BothWent(l, Rounds(l, k), x, s)
    requires !BothWent(l, st.gone, x, s)
    ensures MayFail(l)
    decreases m
  {
    hide Twice, MayFail, Reachable, Rounds, IsReferrer, ByOrphan;
    if m == 0 {
      PhaseEnds(l, k, st);
    } else {
      assert st.queue[0] in st.queue[..m];
      var next := Advance(l, n, k, st, m);
      if !MayFail(l) {
        if BothWent(l, next.gone, x, s) {
          BothQueue(l, k, st, m, next, x, s);
        } else {
          TieRuns(l, n + 1, k, next, m - 1, x, s);
        }
      }
    }
  }

  /** x loses its subject and its last lister in the same round. */
  lemma TieFails(l: Layout, k: nat, x: Key, s: Key)
    requires x in l.nodes && x !in Rounds(l, k) && IsReferrer(l.contents, x, s) && GoesIn(l, k, s)
    requires ByOrphan(l, Rounds(l, k), x)
    ensures MayFail(l)
  {
    ReferrerLists(l.contents, x, s);
    if k > 0 {
      RoundsGrow(l, k - 1, k);
    }
    CanComeFirst(l, k, s);
    if !MayFail(l) {
      var n: nat, st :| Reachable(l, n, st) && BeginsWith(l, k, st, s);
      assert s !in st.gone;
      TieRuns(l, n, k, st, |st.queue|, x, s);
    }
  }

  // ---- Making x come after all that list it ----

  /** z is listed by nothing that is left, and does not lead to x. */
  ghost predicate Harmless(l: Layout, gone: set<Key>, x: Key, z: Key) {
    && !Reaches(Lists(l.contents), z, x)
    && forall n :: n in l.nodes && n !in gone ==> z !in SuccessorKeys(l.contents, n)
  }

  /** The keys in this part of the queue are harmless. */
  ghost predicate HarmlessPart(l: Layout, st: Stage, x: Key, lo: nat, hi: nat) {
    forall p :: lo <= p < hi && p < |st.queue| ==> Harmless(l, st.gone, x, st.queue[p])
  }

  lemma HarmlessStays(l: Layout, st: Stage, next: Stage, x: Key, lo: nat, hi: nat)
    requires HarmlessPart(l, st, x, lo, hi) && st.gone <= next.gone && 0 < lo && 0 < hi <= |st.queue|
    requires st.queue[1..] <= next.queue
    ensures HarmlessPart(l, next, x, lo - 1, hi - 1)
  {
    forall p | lo - 1 <= p < hi - 1 ensures Harmless(l, next.gone, x, next.queue[p]) {
      assert next.queue[p] == st.queue[1..][p] == st.queue[p + 1];
      assert Harmless(l, st.gone, x, st.queue[p + 1]);
    }
  }

  lemma OrphanIsHarmless(l: Layout, gone: set<Key>, h: Key, x: Key, z: Key)
    requires z in OrphansOf(l, gone, h) && !Reaches(Lists(l.contents), h, x)
    ensures Harmless(l, gone + {h}, x, z)
  {
    assert z in Lists(l.contents)(h);
    if Reaches(Lists(l.contents), z, x) {
      ReachesFirst(Lists(l.contents), h, z, x);
    }
  }

  lemma HarmlessHasNoReferrers(l: Layout, gone: set<Key>, x: Key, h: Key)
    requires Harmless(l, gone, x, h)
    ensures ReferrersOf(l, gone, h) == {}
  {
    forall y | y in ReferrersOf(l, gone, h) ensures false {
      ReferrerLists(l.contents, y, h);
    }
  }

  /** y lies strictly below x. */
  ghost predicate Under(g: Graph<Key>, x: Key, y: Key) {
    exists z :: z in g(x) && Reaches(g, z, y)
  }

  lemma NoWayBack(g: Graph<Key>, x: Key, y: Key)
    requires Acyclic(g) && Under(g, x, y)
    ensures !Reaches(g, y, x)
  {
    var z :| z in g(x) && Reaches(g, z, y);
    if Reaches(g, y, x) {
      ReachesTransitive(g, z, y, x);
    }
  }

  lemma UnderStep(g: Graph<Key>, x: Key, y: Key, s: Key)
    requires (y == x || Under(g, x, y)) && s in g(y)
    ensures Under(g, x, s)
  {
    if y == x {
      ReachesSelf(g, s);
    } else {
      var z :| z in g(x) && Reaches(g, z, y);
      ReachesStep(g, z, y, s);
    }
  }

  /** A round is about to begin, and behind y there are only harmless keys. */
  ghost predicate BeginsBehind(l: Layout, j: nat, st: Stage, i: nat, y: Key, x: Key) {
    && st.gone == Before(l, j) && Phase(l, j, st, |st.queue|) && i < |st.queue| && st.queue[i] == y
    && HarmlessPart(l, st, x, i + 1, |st.queue|)
  }

  ghost predicate CanComeBehind(l: Layout, j: nat, y: Key, x: Key) {
    exists n: nat, st, i: nat :: Reachable(l, n, st) && BeginsBehind(l, j, st, i, y, x)
  }

  /** The harmless rest of a phase adds only harmless keys. */
  lemma {:induction false} FinishBehind(l: Layout, n: nat, k: nat, st: Stage, m: nat, i: nat, y: Key, x: Key)
    requires Reachable(l, n, st) && Phase(l, k, st, m) && m <= i < |st.queue| && st.queue[i] == y
    requires HarmlessPart(l, st, x, 0, m) && HarmlessPart(l, st, x, i + 1, |st.queue|)
    ensures MayFail(l) || CanComeBehind(l, k + 1, y, x)
    decreases m
  {
    hide Phase, Twice, MayFail, Reachable, Turn, Rounds, Harmless, Fails;
    if m == 0 {
      PhaseEnds(l, k, st);
      assert BeginsBehind(l, k + 1, st, i, y, x);
    } else if Fails(l, st) {
      FailsNow(l, n, st);
    } else {
      assert Harmless(l, st.gone, x, st.queue[0]);
      var next := HarmlessTurn(l, st, x);
      Arrive(l, n, k, st, m, next);
      if !MayFail(l) {
        HarmlessKept(l, st, next, x, m, i);
        assert next.queue[i - 1] == st.queue[1..][i - 1];
        FinishBehind(l, n + 1, k, next, m - 1, i - 1, y, x);
      }
    }
  }

  ghost predicate AddsHarmless(l: Layout, st: Stage, next: Stage, x: Key) {
    && st.queue != [] && next.gone == st.gone + {st.queue[0]} && st.queue[1..] <= next.queue
    && forall p :: |st.queue| - 1 <= p < |next.queue| ==> Harmless(l, next.gone, x, next.queue[p])
  }

  lemma HarmlessTurn(l: Layout, st: Stage, x: Key) returns (next: Stage)
    requires st.queue != [] && !Fails(l, st) && Harmless(l, st.gone, x, st.queue[0])
    ensures Turn(l, st, next) && AddsHarmless(l, st, next, x)
  {
    var h := st.queue[0];
    HarmlessHasNoReferrers(l, st.gone, x, h);
    next := TurnWith(l, st, []);
    var orphans := InSomeOrder(OrphansOf(l, st.gone, h));
    forall p | |st.queue| - 1 <= p < |next.queue| ensures Harmless(l, next.gone, x, next.queue[p]) {
      assert next.queue[p] == orphans[p - (|st.queue| - 1)];
      OrphanIsHarmless(l, st.gone, h, x, next.queue[p]);
    }
  }

  lemma HarmlessKept(l: Layout, st: Stage, next: Stage, x: Key, m: nat, i: nat)
    requires AddsHarmless(l, st, next, x) && 0 < m <= i < |st.queue|
    requires HarmlessPart(l, st, x, 0, m) && HarmlessPart(l, st, x, i + 1, |st.queue|)
    ensures HarmlessPart(l, next, x, 0, m - 1) && HarmlessPart(l, next, x, i, |next.queue|)
  {
    forall p | 0 <= p < |next.queue| && (p < m - 1 || i <= p) ensures Harmless(l, next.gone, x, next.queue[p]) {
      if p < |st.queue| - 1 {
        assert next.queue[p] == st.queue[1..][p] == st.queue[p + 1];
        assert Harmless(l, st.gone, x, st.queue[p + 1]);
      }
    }
  }

  lemma PhaseBounds(l: Layout, k: nat, st: Stage, m: nat)
    requires Phase(l, k, st, m)
    ensures m <= |st.queue|
  {
  }

  lemma LastOf(l: Layout, st: Stage, y: Key) returns (refs: seq<Key>)
    requires st.queue != [] && y in ReferrersOf(l, st.gone, st.queue[0])
    ensures Enumerates(refs, ReferrersOf(l, st.gone, st.queue[0])) && refs != [] && refs[|refs| - 1] == y
  {
    refs := InSomeOrder(ReferrersOf(l, st.gone, st.queue[0]) - {y}) + [y];
  }

  /** The subject s at the head goes, and queues y as the last of its referrers. */
  lemma SubjectGoes(l: Layout, st: Stage, m: nat, y: Key, x: Key) returns (next: Stage, i: nat)
    requires 0 < m <= |st.queue| && !Fails(l, st) && y in ReferrersOf(l, st.gone, st.queue[0])
    requires HarmlessPart(l, st, x, 1, m) && !Reaches(Lists(l.contents), st.queue[0], x)
    ensures Turn(l, st, next) && m - 1 <= i < |next.queue| && next.queue[i] == y
    ensures HarmlessPart(l, next, x, 0, m - 1) && HarmlessPart(l, next, x, i + 1, |next.queue|)
  {
    var h := st.queue[0];
    var refs := LastOf(l, st, y);
    next := TurnWith(l, st, refs);
    var orphans := InSomeOrder(OrphansOf(l, st.gone, h));
    i := |st.queue| + |refs| - 2;
    HarmlessStays(l, st, next, x, 1, m);
    forall p | i < p < |next.queue| ensures Harmless(l, next.gone, x, next.queue[p]) {
      assert next.queue[p] == orphans[p - i - 1];
      OrphanIsHarmless(l, st.gone, h, x, next.queue[p]);
    }
  }

  /** A phase in which s comes behind all that leads to x: so does its referrer y in the next one. */
  lemma {:induction false} ThenBehind(l: Layout, n: nat, k: nat, st: Stage, m: nat, i: nat, s: Key, y: Key, x: Key)
    requires Reachable(l, n, st) && Phase(l, k, st, m) && i < m && st.queue[i] == s && HarmlessPart(l, st, x, i + 1, m)
    requires y in l.nodes && IsReferrer(l.contents, y, s) && y !in Rounds(l, k) && !Reaches(Lists(l.contents), s, x)
    ensures MayFail(l) || CanComeBehind(l, k + 1, y, x)
    decreases i
  {
    hide Phase, Twice, MayFail, Reachable, Turn, Rounds, Harmless, Fails, ReferrersOf, CanComeBehind, IsReferrer, HarmlessPart, Reaches;
    PhaseBounds(l, k, st, m);
    if i > 0 {
      var next := Advance(l, n, k, st, m);
      if !MayFail(l) {
        HarmlessStays(l, st, next, x, i + 1, m);
        assert next.queue[i - 1] == st.queue[1..][i - 1];
        ThenBehind(l, n + 1, k, next, m - 1, i - 1, s, y, x);
      }
    } else if Fails(l, st) {
      FailsNow(l, n, st);
    } else {
      IsWaitingReferrer(l, k, st, m, y);
      var next, at := SubjectGoes(l, st, m, y, x);
      Arrive(l, n, k, st, m, next);
      if !MayFail(l) {
        FinishBehind(l, n + 1, k, next, m - 1, at, y, x);
      }
    }
  }

  lemma StartsBehind(l: Layout, y: Key, x: Key)
    requires GoesIn(l, 0, y)
    ensures CanComeBehind(l, 0, y, x)
  {
    PhaseStarts(l);
    assert BeginsBehind(l, 0, Stage({}, [l.target]), 0, y, x);
    assert Reachable(l, 0, Stage({}, [l.target]));
  }

  lemma SubjectUnder(l: Layout, j: nat, y: Key, x: Key) returns (s: Key)
    requires j > 0 && GoesIn(l, j, y) && !ByOrphan(l, Rounds(l, j - 1), y)
    requires Acyclic(Lists(l.contents)) && (y == x || Under(Lists(l.contents), x, y))
    ensures y in l.nodes && IsReferrer(l.contents, y, s) && GoesIn(l, j - 1, s) && y !in Rounds(l, j - 1)
    ensures j > 1 ==> !ByOrphan(l, Rounds(l, j - 2), s)
    ensures Under(Lists(l.contents), x, s) && !Reaches(Lists(l.contents), s, x)
  {
    s := SubjectWent(l, j, y);
    ReferrerLists(l.contents, y, s);
    UnderStep(Lists(l.contents), x, y, s);
    NoWayBack(Lists(l.contents), x, s);
  }

  lemma NextBehind(l: Layout, j: nat, s: Key, y: Key, x: Key)
    requires CanComeBehind(l, j, s, x)
    requires y in l.nodes && IsReferrer(l.contents, y, s) && y !in Rounds(l, j) && !Reaches(Lists(l.contents), s, x)
    ensures MayFail(l) || CanComeBehind(l, j + 1, y, x)
  {
    hide Phase, MayFail, Reachable, Rounds, IsReferrer, Reaches;
    var n: nat, st, i: nat :| Reachable(l, n, st) && BeginsBehind(l, j, st, i, s, x);
    ThenBehind(l, n, j, st, |st.queue|, i, s, y, x);
  }

  /** Any key that goes as a referrer, and x itself, can be made to come behind all that leads to x. */
  lemma {:induction false} CanComeLast(l: Layout, j: nat, y: Key, x: Key)
    requires GoesIn(l, j, y) && (j > 0 ==> !ByOrphan(l, Rounds(l, j - 1), y))
    requires Acyclic(Lists(l.contents)) && (y == x || Under(Lists(l.contents), x, y))
    ensures MayFail(l) || CanComeBehind(l, j, y, x)
    decreases j
  {
    hide Phase, MayFail, Reachable, Rounds, IsReferrer, Acyclic, Reaches, ByOrphan, Under, GoesIn, CanComeBehind, Lists;
    if j == 0 {
      StartsBehind(l, y, x);
    } else {
      var s := SubjectUnder(l, j, y, x);
      CanComeLast(l, j - 1, s, x);
      if !MayFail(l) {
        NextBehind(l, j - 1, s, y, x);
      }
    }
  }

  /** With x at the head of the phase, and only harmless keys behind it, nothing that lists x is left. */
  lemma NoListerLeft(l: Layout, k: nat, st: Stage, m: nat, x: Key)
    requires Acyclic(Lists(l.contents)) && Phase(l, k, st, m) && 0 < m && st.queue[0] == x && HarmlessPart(l, st, x, 1, m)
    requires ByOrphan(l, Rounds(l, k), x)
    ensures ByOrphan(l, st.gone, x)
  {
    forall n | n in l.nodes && x in SuccessorKeys(l.contents, n) ensures n in st.gone {
      NoSelfLoops(l.contents, x);
      ListerLeads(l.contents, n, x);
      NotHarmless(l, st, m, n, x);
    }
  }

  lemma ListerLeads(contents: Contents, n: Key, x: Key)
    requires x in SuccessorKeys(contents, n)
    ensures Reaches(Lists(contents), n, x)
  {
    ReachesSelf(Lists(contents), x);
    ReachesFirst(Lists(contents), n, x, x);
  }

  lemma NotHarmless(l: Layout, st: Stage, m: nat, n: Key, x: Key)
    requires 0 < m <= |st.queue| && st.queue[0] == x && HarmlessPart(l, st, x, 1, m) && Reaches(Lists(l.contents), n, x) && n != x
    ensures n !in st.queue[..m]
  {
    forall p | 0 <= p < m ensures st.queue[p] != n {
      assert p > 0 ==> Harmless(l, st.gone, x, st.queue[p]);
    }
  }

  /** One turn with x in the queue: x keeps a lister, or it is queued again. */
  lemma KeepsLister(l: Layout, k: nat, st: Stage, m: nat, next: Stage, x: Key)
    requires Phase(l, k, st, m) && m > 0 && Turn(l, st, next) && x in st.queue[1..] && !ByOrphan(l, st.gone, x)
    ensures Twice(next) || !ByOrphan(l, next.gone, x)
  {
    TurnTakesHead(l, st, next);
    assert x in st.queue;
    QueuedIn(l, k, st, m, x);
    hide Phase, Turn, Twice, ByOrphan, Next, Rounds;
    if ByOrphan(l, next.gone, x) {
      NewOrphan(l, st.gone, st.queue[0], x);
      TurnRepeats(l, st, next, x);
    }
  }

  ghost predicate Trails(l: Layout, n: nat, k: nat, st: Stage, m: nat, i: nat, x: Key) {
    && Reachable(l, n, st) && Phase(l, k, st, m) && i < m && m <= |st.queue| && st.queue[i] == x
    && HarmlessPart(l, st, x, i + 1, m) && !ByOrphan(l, st.gone, x)
  }

  lemma TrailsOn(l: Layout, n: nat, k: nat, st: Stage, m: nat, i: nat, x: Key) returns (next: Stage)
    requires Trails(l, n, k, st, m, i, x) && i > 0
    ensures MayFail(l) || Trails(l, n + 1, k, next, m - 1, i - 1, x)
  {
    hide Phase, Twice, MayFail, Reachable, Turn, Harmless, ByOrphan;
    next := Advance(l, n, k, st, m);
    if !MayFail(l) {
      assert st.queue[1..][i - 1] == x;
      KeepsLister(l, k, st, m, next, x);
      HarmlessStays(l, st, next, x, i + 1, m);
      assert next.queue[i - 1] == st.queue[1..][i - 1];
    }
  }

  lemma {:induction false} LastRuns(l: Layout, n: nat, k: nat, st: Stage, m: nat, i: nat, x: Key)
    requires Acyclic(Lists(l.contents)) && Trails(l, n, k, st, m, i, x) && ByOrphan(l, Rounds(l, k), x)
    ensures MayFail(l)
    decreases i
  {
    hide MayFail, Rounds, ByOrphan, Acyclic, Lists, Phase, HarmlessPart, Reachable;
    if i == 0 {
      NoListerLeft(l, k, st, m, x);
    } else {
      var next := TrailsOn(l, n, k, st, m, i, x);
      if !MayFail(l) {
        LastRuns(l, n + 1, k, next, m - 1, i - 1, x);
      }
    }
  }

  /** x is queued as a referrer when its last lister goes. */
  lemma LastFails(l: Layout, k: nat, x: Key)
    requires Acyclic(Lists(l.contents)) && GoesIn(l, k + 1, x)
    requires ByOrphan(l, Rounds(l, k + 1), x) && !ByOrphan(l, Rounds(l, k), x)
    ensures MayFail(l)
  {
    CanComeLast(l, k + 1, x, x);
    if !MayFail(l) {
      var n: nat, st, i: nat :| Reachable(l, n, st) && BeginsBehind(l, k + 1, st, i, x, x);
      LastRuns(l, n, k + 1, st, |st.queue|, i, x);
    }
  }

  // ---- The exact condition ----

  lemma ConflictFails(l: Layout, k: nat, x: Key)
    requires Acyclic(Lists(l.contents)) && Conflict(l, k, x)
    ensures MayFail(l)
  {
    var s :| s in Rounds(l, k + 1) && IsReferrer(l.contents, x, s);
    if k > 0 {
      NotYet(l, k, x, s);
    }
    if s in Rounds(l, k) && ByOrphan(l, Rounds(l, k), x) {
      TieFails(l, k, x, s);
    } else if s in Rounds(l, k) {
      assert x in Next(l, Rounds(l, k));
      LastFails(l, k, x);
    } else if ByOrphan(l, Rounds(l, k), x) {
      assert x in Next(l, Rounds(l, k));
      FirstFails(l, k, x, s);
    } else {
      assert !ByReferrer(l, Rounds(l, k), x);
      TieFails(l, k + 1, x, s);
    }
  }

  lemma NotYet(l: Layout, k: nat, x: Key, s: Key)
    requires k > 0 && x in l.nodes && x !in Rounds(l, k) && IsReferrer(l.contents, x, s)
    ensures s !in Rounds(l, k - 1)
  {
    assert x !in Next(l, Rounds(l, k - 1));
  }

  /** A cascading delete succeeds in every order if and only if all that has to go is stored and there is no conflict. */
  lemma SucceedsIff(l: Layout)
    requires Acyclic(Lists(l.contents))
    ensures !MayFail(l) <==> AllStored(l) && NoConflict(l)
  {
    if !AllStored(l) {
      MissingFails(l);
    } else if !NoConflict(l) {
      var k: nat, x :| Conflict(l, k, x);
      ConflictFails(l, k, x);
    } else if MayFail(l) {
      var n: nat, st :| FailsAt(l, n, st);
      SafeNeverFails(l, n, st);
    }
  }
}
