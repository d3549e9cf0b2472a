/**
 A cascading delete as a nondeterministic machine over its queue: each turn takes the head and appends its referrers
 and its untagged orphans, each in any order.  When does it succeed, whatever the orders are?
 */
module DeleteOrders {
  import opened Descriptors
  import opened GraphMemory
  import opened Reachability
  import opened Sequences
  import opened Resolver
  import opened Cascades

  /** What a delete starts from: fixed contents, indexed nodes, stored blobs, tag sets and the target. */
  datatype Layout = Layout(contents: Contents, nodes: set<Key>, storage: set<Key>, tags: TagSets, target: Key)

  datatype Stage = Stage(gone: set<Key>, queue: seq<Key>)

  ghost predicate Enumerates(s: seq<Key>, keys: set<Key>) {
    NoDuplicates(s) && forall x :: x in s <==> x in keys
  }

  ghost function ReferrersOf(l: Layout, gone: set<Key>, h: Key): set<Key> {
    set y | y in l.nodes && y !in gone && IsReferrer(l.contents, y, h)
  }

  ghost function OrphansOf(l: Layout, gone: set<Key>, h: Key): set<Key> {
    set x | x in l.nodes && LastLister(l.contents, l.nodes - gone, h, x) && !IsTagged(l.tags, x)
  }

  /** The head goes; its referrers and then its untagged orphans are queued. */
  ghost predicate Queues(l: Layout, a: Stage, refs: seq<Key>, orphans: seq<Key>, b: Stage) {
    && a.queue != [] && a.queue[0] in l.storage && a.queue[0] !in a.gone
    && Enumerates(refs, ReferrersOf(l, a.gone, a.queue[0])) && Enumerates(orphans, OrphansOf(l, a.gone, a.queue[0]))
    && b == Stage(a.gone + {a.queue[0]}, a.queue[1..] + (refs + orphans))
  }

  ghost predicate Turn(l: Layout, a: Stage, b: Stage) {
    exists refs, orphans :: Queues(l, a, refs, orphans, b)
  }

  ghost predicate Reachable(l: Layout, n: nat, st: Stage) {
    if n == 0 then st == Stage({}, [l.target])
    else exists prev :: Reachable(l, n - 1, prev) && Turn(l, prev, st)
  }

  /** The head is not stored, or not any more: the delete fails. */
  ghost predicate Fails(l: Layout, st: Stage) {
    st.queue != [] && (st.queue[0] !in l.storage || st.queue[0] in st.gone)
  }

  ghost predicate FailsAt(l: Layout, n: nat, st: Stage) {
    Reachable(l, n, st) && Fails(l, st)
  }

  ghost predicate MayFail(l: Layout) {
    exists n: nat, st :: FailsAt(l, n, st)
  }

  lemma TurnTakesHead(l: Layout, a: Stage, b: Stage)
    requires Turn(l, a, b)
    ensures a.queue != [] && !Fails(l, a) && b.gone == a.gone + {a.queue[0]} && a.queue[1..] <= b.queue
  {
  }

  // ---- The condition ----

  ghost predicate ByReferrer(l: Layout, gone: set<Key>, x: Key) {
    exists s :: s in gone && IsReferrer(l.contents, x, s)
  }

  ghost predicate ByOrphan(l: Layout, gone: set<Key>, x: Key) {
    Orphaned(l.contents, l.nodes, gone, x) && !IsTagged(l.tags, x)
  }

  /** What has to go next when the keys in `gone` are gone. */
  ghost function Next(l: Layout, gone: set<Key>): set<Key> {
    set x | x in l.nodes && (ByReferrer(l, gone, x) || ByOrphan(l, gone, x))
  }

  /** What is gone after k rounds in which everything that has to go goes at once. */
  ghost function Rounds(l: Layout, k: nat): set<Key> {
    if k == 0 then {l.target} else Rounds(l, k - 1) + Next(l, Rounds(l, k - 1))
  }

  /** x is there after k rounds, and one round later both its subject and all that list it are gone. */
  ghost predicate Conflict(l: Layout, k: nat, x: Key) {
    x in l.nodes && x !in Rounds(l, k) && ByReferrer(l, Rounds(l, k + 1), x) && ByOrphan(l, Rounds(l, k + 1), x)
  }

  ghost predicate AllStored(l: Layout) {
    forall k: nat :: Rounds(l, k) <= l.storage
  }

  ghost predicate NoConflict(l: Layout) {
    forall k: nat, x :: !Conflict(l, k, x)
  }

  function Lists(contents: Contents): Graph<Key> {
    k => Keys(Successors(contents, k))
  }

  // ---- Monotonicity ----

  lemma NextGrows(l: Layout, g: set<Key>, g': set<Key>, x: Key)
    requires g <= g'
    ensures ByReferrer(l, g, x) ==> ByReferrer(l, g', x)
    ensures ByOrphan(l, g, x) ==> ByOrphan(l, g', x)
  {
    if ByOrphan(l, g, x) {
      var p :| p in l.nodes && p in g && x in SuccessorKeys(l.contents, p);
      assert p in g';
    }
  }

  lemma {:induction false} RoundsGrow(l: Layout, i: nat, j: nat)
    requires i <= j
    ensures Rounds(l, i) <= Rounds(l, j)
  {
    hide Next;
    if i < j {
      RoundsGrow(l, i, j - 1);
    }
  }

  lemma NoSelfLoops(contents: Contents, k: Key)
    requires Acyclic(Lists(contents))
    ensures k !in SuccessorKeys(contents, k) && !IsReferrer(contents, k, k)
  {
    ReachesSelf(Lists(contents), k);
    if IsReferrer(contents, k, k) {
      ReferrerLists(contents, k, k);
    }
  }

  // ---- Phases: what goes in round k is taken before what goes in round k + 1 ----

  ghost function Before(l: Layout, k: nat): set<Key> {
    if k == 0 then {} else Rounds(l, k - 1)
  }

  /** The first m of the queue are what is left of round k; the others follow from what is gone already. */
  ghost predicate Phase(l: Layout, k: nat, st: Stage, m: nat) {
    && m <= |st.queue| && NoDuplicates(st.queue)
    && Before(l, k) <= st.gone <= Rounds(l, k)
    && (forall x :: x in st.queue[..m] <==> x in Rounds(l, k) && x !in st.gone)
    && (forall x :: x in st.queue[m..] <==> x in Next(l, st.gone) && x !in Rounds(l, k))
  }

  /** A key is queued twice, or queued and gone. */
  ghost predicate Twice(st: Stage) {
    || !NoDuplicates(st.queue)
    || exists i :: 0 <= i < |st.queue| && st.queue[i] in st.gone
  }

  lemma PhaseStarts(l: Layout)
    ensures Phase(l, 0, Stage({}, [l.target]), 1)
  {
    assert [l.target][..1] == [l.target] && [l.target][1..] == [];
    assert forall x :: x !in Next(l, {});
  }

  lemma PhaseEnds(l: Layout, k: nat, st: Stage)
    requires Phase(l, k, st, 0)
    ensures st.gone == Rounds(l, k) && Phase(l, k + 1, st, |st.queue|)
  {
    assert st.queue[..0] == [] && st.queue[0..] == st.queue && st.queue[..|st.queue|] == st.queue && st.queue[|st.queue|..] == [];
    assert forall x :: x in Rounds(l, k) ==> x in st.gone;
    assert st.gone == Rounds(l, k);
    assert Rounds(l, k + 1) == st.gone + Next(l, st.gone);
  }

  lemma TwiceStays(l: Layout, a: Stage, b: Stage)
    requires Twice(a) && Turn(l, a, b)
    ensures Twice(b)
  {
    var refs, orphans :| Queues(l, a, refs, orphans, b);
    assert forall i :: 1 <= i < |a.queue| ==> b.queue[i - 1] == a.queue[i];
    if !NoDuplicates(a.queue) {
      var i, j :| 0 <= i < j < |a.queue| && a.queue[i] == a.queue[j];
      if i == 0 {
        assert b.queue[j - 1] in b.gone;
      } else {
        assert b.queue[i - 1] == b.queue[j - 1];
      }
    } else {
      var i :| 0 <= i < |a.queue| && a.queue[i] in a.gone;
      assert b.queue[i - 1] in b.gone;
    }
  }

  /** What is added to the second part of the queue when the head goes. */
  lemma NextStep(l: Layout, gone: set<Key>, h: Key, x: Key)
    requires h !in gone && x !in gone && x != h
    ensures x in Next(l, gone + {h}) <==> x in Next(l, gone) || x in ReferrersOf(l, gone, h) || x in OrphansOf(l, gone, h)
  {
    NextGrows(l, gone, gone + {h}, x);
    if x in ReferrersOf(l, gone, h) {
      assert h in gone + {h};
    }
    if x in OrphansOf(l, gone, h) {
      assert h in gone + {h};
    }
    if ByOrphan(l, gone + {h}, x) && !ByOrphan(l, gone, x) {
      OrphanedBy(l.contents, l.nodes, gone, h, x);
    }
  }

  /** Without a repetition, a turn moves on within the phase. */
  lemma PhaseStep(l: Layout, k: nat, a: Stage, m: nat, b: Stage)
    requires Phase(l, k, a, m) && m > 0 && Turn(l, a, b)
    ensures Twice(b) || Phase(l, k, b, m - 1)
  {
    var refs, orphans :| Queues(l, a, refs, orphans, b);
    if !Twice(b) {
      QueueParts(a.queue, m, refs + orphans);
      assert a.queue[0] in a.queue[..m];
      assert b.queue == a.queue[1..] + (refs + orphans);
      hide Next, Rounds, ReferrersOf, OrphansOf;
      forall x ensures x in b.queue[m - 1..] <==> x in Next(l, b.gone) && x !in Rounds(l, k) {
        BackStep(l, k, a, m, b, refs, orphans, x);
      }
    }
  }

  lemma QueueParts(q: seq<Key>, m: nat, added: seq<Key>)
    requires NoDuplicates(q) && 0 < m <= |q|
    ensures forall x :: x in (q[1..] + added)[..m - 1] <==> x in q[..m] && x != q[0]
    ensures forall x :: x in (q[1..] + added)[m - 1..] <==> x in q[m..] || x in added
  {
    HeadGoes(q, m);
    assert (q[1..] + added)[..m - 1] == q[1..][..m - 1];
    assert (q[1..] + added)[m - 1..] == q[1..][m - 1..] + added;
  }

  lemma BackStep(l: Layout, k: nat, a: Stage, m: nat, b: Stage, refs: seq<Key>, orphans: seq<Key>, x: Key)
    requires Phase(l, k, a, m) && m > 0 && Queues(l, a, refs, orphans, b) && !Twice(b)
    ensures x in a.queue[m..] || x in refs + orphans <==> x in Next(l, b.gone) && x !in Rounds(l, k)
  {
    assert a.queue[0] in a.queue[..m];
    if x in refs + orphans {
      AddedIsNew(l, k, a, m, b, refs, orphans, x);
    }
    assert x in refs + orphans <==> x in ReferrersOf(l, a.gone, a.queue[0]) || x in OrphansOf(l, a.gone, a.queue[0]);
    hide Rounds, ReferrersOf, OrphansOf, Twice;
    if x !in Rounds(l, k) {
      NextStep(l, a.gone, a.queue[0], x);
    }
  }

  lemma HeadGoes(q: seq<Key>, m: nat)
    requires NoDuplicates(q) && 0 < m <= |q|
    ensures forall x :: x in q[1..][..m - 1] <==> x in q[..m] && x != q[0]
    ensures forall x :: x in q[1..][m - 1..] <==> x in q[m..]
  {
    assert q[..m] == [q[0]] + q[1..][..m - 1];
    assert q[1..][m - 1..] == q[m..];
    assert q[0] !in q[1..][..m - 1];
  }

  lemma ConcatApart(s: seq<Key>, t: seq<Key>, x: Key)
    requires NoDuplicates(s + t) && x in t
    ensures x !in s
  {
    var j :| 0 <= j < |t| && t[j] == x;
    assert (s + t)[|s| + j] == x;
    assert forall i :: 0 <= i < |s| ==> (s + t)[i] == s[i];
  }

  lemma AddedIsNew(l: Layout, k: nat, a: Stage, m: nat, b: Stage, refs: seq<Key>, orphans: seq<Key>, x: Key)
    requires Phase(l, k, a, m) && m > 0 && Queues(l, a, refs, orphans, b) && !Twice(b) && x in refs + orphans
    ensures x !in Rounds(l, k) && x != a.queue[0] && x !in a.gone && x in l.nodes
  {
    assert x in refs || x in orphans;
    assert x !in a.gone && x in l.nodes;
    NotGone(b, x);
    ConcatApart(a.queue[1..], refs + orphans, x);
    HeadGoes(a.queue, m);
    assert x !in a.queue[1..][..m - 1];
    hide Rounds, Next, ReferrersOf, OrphansOf;
    assert x !in a.queue[..m];
  }

  lemma NotGone(st: Stage, x: Key)
    requires !Twice(st) && x in st.queue
    ensures x !in st.gone
  {
  }

  // ---- No conflict, no repetition ----

  lemma QueuedIn(l: Layout, k: nat, st: Stage, m: nat, x: Key)
    requires Phase(l, k, st, m) && x in st.queue
    ensures x !in st.gone && (x in Rounds(l, k) || x in Next(l, st.gone))
    ensures k > 0 ==> x !in Rounds(l, k - 1)
  {
    assert st.queue == st.queue[..m] + st.queue[m..];
  }

  /** A queued key that is also a referrer of the head was queued as an orphan. */
  lemma QueuedReferrer(l: Layout, k: nat, st: Stage, m: nat, x: Key)
    requires Phase(l, k, st, m) && m > 0 && Acyclic(Lists(l.contents))
    requires x in st.queue && x in ReferrersOf(l, st.gone, st.queue[0])
    ensures exists j: nat :: Conflict(l, j, x)
  {
    var h := st.queue[0];
    assert h in st.queue[..m];
    QueuedIn(l, k, st, m, x);
    RoundsGrow(l, k, k + 1);
    if x in Rounds(l, k) {
      NoSelfLoops(l.contents, x);
      assert k > 0 && x in Next(l, Rounds(l, k - 1));
      assert !ByReferrer(l, Rounds(l, k - 1), x);
      NextGrows(l, Rounds(l, k - 1), Rounds(l, k), x);
      assert Conflict(l, k - 1, x);
    } else {
      assert !ByReferrer(l, st.gone, x);
      NextGrows(l, st.gone, Rounds(l, k + 1), x);
      assert h in Rounds(l, k + 1);
      assert Conflict(l, k, x);
    }
  }

  /** A queued key that the head was the last to list was queued as a referrer. */
  lemma QueuedOrphan(l: Layout, k: nat, st: Stage, m: nat, x: Key)
    requires Phase(l, k, st, m) && m > 0 && Acyclic(Lists(l.contents))
    requires x in st.queue && x in OrphansOf(l, st.gone, st.queue[0])
    ensures exists j: nat :: Conflict(l, j, x)
  {
    hide ByReferrer;
    var h := st.queue[0];
    assert h in st.queue[..m];
    QueuedIn(l, k, st, m, x);
    RoundsGrow(l, k, k + 1);
    NoSelfLoops(l.contents, x);
    OrphanGoes(l, st.gone, h, x);
    NextGrows(l, st.gone + {h}, Rounds(l, k), x);
    NextGrows(l, Rounds(l, k), Rounds(l, k + 1), x);
    if x in Rounds(l, k) {
      assert k > 0 && x in Next(l, Rounds(l, k - 1));
      assert !ByOrphan(l, Rounds(l, k - 1), x);
      NextGrows(l, Rounds(l, k - 1), Rounds(l, k), x);
      assert Conflict(l, k - 1, x);
    } else {
      assert !ByOrphan(l, st.gone, x);
      NextGrows(l, st.gone, Rounds(l, k + 1), x);
      assert Conflict(l, k, x);
    }
  }

  lemma OrphanGoes(l: Layout, gone: set<Key>, h: Key, x: Key)
    requires x in OrphansOf(l, gone, h)
    ensures ByOrphan(l, gone + {h}, x) && (h !in gone ==> !ByOrphan(l, gone, x))
  {
    assert h in gone + {h};
  }

  /** A key queued twice in one turn. */
  lemma QueuedAsBoth(l: Layout, k: nat, st: Stage, m: nat, x: Key)
    requires Phase(l, k, st, m) && m > 0 && Acyclic(Lists(l.contents))
    requires x in ReferrersOf(l, st.gone, st.queue[0]) && x in OrphansOf(l, st.gone, st.queue[0]) && x !in st.queue
    ensures Conflict(l, k, x)
  {
    var h := st.queue[0];
    assert h in st.queue[..m];
    RoundsGrow(l, k, k + 1);
    OrphanGoes(l, st.gone, h, x);
    NextGrows(l, st.gone + {h}, Rounds(l, k + 1), x);
    assert h in Rounds(l, k + 1);
    assert x !in st.queue[..m];
  }

  lemma Assemble(rest: seq<Key>, refs: seq<Key>, orphans: seq<Key>)
    requires NoDuplicates(rest) && NoDuplicates(refs) && NoDuplicates(orphans)
    requires forall x :: x in refs ==> x !in rest
    requires forall x :: x in orphans ==> x !in rest && x !in refs
    ensures NoDuplicates(rest + (refs + orphans))
  {
    NoDuplicatesConcat(refs, orphans);
    forall x | x in refs + orphans ensures x !in rest {
      assert x in refs || x in orphans;
    }
    NoDuplicatesConcat(rest, refs + orphans);
  }

  lemma TurnWithoutConflict(l: Layout, k: nat, a: Stage, m: nat, b: Stage)
    requires Phase(l, k, a, m) && m > 0 && Turn(l, a, b) && Acyclic(Lists(l.contents)) && NoConflict(l)
    ensures !Twice(b)
  {
    var refs, orphans :| Queues(l, a, refs, orphans, b);
    forall x | x in refs ensures x !in a.queue {
      if x in a.queue { QueuedReferrer(l, k, a, m, x); }
    }
    forall x | x in orphans ensures x !in a.queue && x !in refs {
      if x in a.queue {
        QueuedOrphan(l, k, a, m, x);
      } else if x in refs {
        QueuedAsBoth(l, k, a, m, x);
      }
    }
    Assemble(a.queue[1..], refs, orphans);
    forall i | 0 <= i < |b.queue| ensures b.queue[i] !in b.gone {
      if i < |a.queue| - 1 {
        QueuedIn(l, k, a, m, a.queue[i + 1]);
      } else {
        assert b.queue[i] in refs || b.queue[i] in orphans;
        assert a.queue[0] in a.queue;
      }
    }
  }

  // ---- Runs ----

  ghost predicate InPhase(l: Layout, st: Stage) {
    exists k: nat, m: nat :: Phase(l, k, st, m) && (m > 0 || st.queue == [])
  }

  lemma SomePhase(l: Layout, k: nat, st: Stage, m: nat)
    requires Phase(l, k, st, m)
    ensures InPhase(l, st)
  {
    if m == 0 && st.queue != [] {
      PhaseEnds(l, k, st);
    }
  }

  /** Every run is in a phase, until something is queued twice. */
  lemma {:induction false} RunInPhase(l: Layout, n: nat, st: Stage)
    requires Reachable(l, n, st)
    ensures Twice(st) || InPhase(l, st)
  {
    if n == 0 {
      PhaseStarts(l);
    } else {
      var prev :| Reachable(l, n - 1, prev) && Turn(l, prev, st);
      RunInPhase(l, n - 1, prev);
      if Twice(prev) {
        TwiceStays(l, prev, st);
      } else {
        TurnInPhase(l, prev, st);
      }
    }
  }

  lemma TurnInPhase(l: Layout, a: Stage, b: Stage)
    requires InPhase(l, a) && Turn(l, a, b)
    ensures Twice(b) || InPhase(l, b)
  {
    TurnTakesHead(l, a, b);
    hide Phase, Turn, Twice;
    var k: nat, m: nat :| Phase(l, k, a, m) && (m > 0 || a.queue == []);
    PhaseStep(l, k, a, m, b);
    if !Twice(b) {
      SomePhase(l, k, b, m - 1);
    }
  }

  lemma {:induction false} GoneWasStored(l: Layout, n: nat, st: Stage)
    requires Reachable(l, n, st)
    ensures st.gone <= l.storage
  {
    if n > 0 {
      var prev :| Reachable(l, n - 1, prev) && Turn(l, prev, st);
      GoneWasStored(l, n - 1, prev);
    }
  }

  lemma {:induction false} SafeStaysInPhase(l: Layout, n: nat, st: Stage)
    requires Reachable(l, n, st) && Acyclic(Lists(l.contents)) && NoConflict(l)
    ensures InPhase(l, st)
  {
    if n == 0 {
      PhaseStarts(l);
    } else {
      var prev :| Reachable(l, n - 1, prev) && Turn(l, prev, st);
      SafeStaysInPhase(l, n - 1, prev);
      TurnTakesHead(l, prev, st);
      hide Phase, Turn, Twice, NoConflict, Acyclic;
      var k: nat, m: nat :| Phase(l, k, prev, m) && (m > 0 || prev.queue == []);
      TurnWithoutConflict(l, k, prev, m, st);
      TurnInPhase(l, prev, st);
    }
  }

  lemma SafeNeverFails(l: Layout, n: nat, st: Stage)
    requires Reachable(l, n, st) && Acyclic(Lists(l.contents)) && AllStored(l) && NoConflict(l)
    ensures !Fails(l, st)
  {
    SafeStaysInPhase(l, n, st);
    hide Rounds, Next, NoConflict, Reachable, Acyclic;
    var k: nat, m: nat :| Phase(l, k, st, m) && (m > 0 || st.queue == []);
    assert Rounds(l, k) <= l.storage;
    if st.queue != [] {
      assert st.queue[0] in st.queue[..m];
    }
  }

  /** Whenever a delete succeeds it has removed the same keys: what is gone after the last round. */
  lemma SameOutcome(l: Layout, n: nat, st: Stage) returns (k: nat)
    requires Reachable(l, n, st) && st.queue == []
    ensures st.gone == Rounds(l, k) && Rounds(l, k + 1) == Rounds(l, k)
  {
    RunInPhase(l, n, st);
    var m: nat;
    k, m :| Phase(l, k, st, m) && (m > 0 || st.queue == []);
    PhaseEnds(l, k, st);
    PhaseEnds(l, k + 1, st);
  }

  /** Nothing more has to go after these. */
  ghost predicate IsLastRound(l: Layout, gone: set<Key>) {
    exists k: nat :: gone == Rounds(l, k) && Rounds(l, k + 1) == Rounds(l, k)
  }

  lemma EndsInLastRound(l: Layout, n: nat, st: Stage)
    requires Reachable(l, n, st) && st.queue == []
    ensures IsLastRound(l, st.gone)
  {
    var k := SameOutcome(l, n, st);
  }

  lemma {:induction false} LastRound(l: Layout, k: nat, j: nat)
    requires Rounds(l, k + 1) == Rounds(l, k)
    ensures Rounds(l, j) <= Rounds(l, k)
  {
    hide ByReferrer, ByOrphan;
    if j <= k {
      RoundsGrow(l, j, k);
    } else {
      LastRound(l, k, j - 1);
      forall x | x in Next(l, Rounds(l, j - 1)) ensures x in Rounds(l, k) {
        NextGrows(l, Rounds(l, j - 1), Rounds(l, k), x);
        assert x in Rounds(l, k + 1);
      }
    }
  }

  // ---- A conflict, or something missing, lets some order fail ----

  ghost function InSomeOrder(keys: set<Key>): (s: seq<Key>)
    ensures Enumerates(s, keys)
  {
    if keys == {} then [] else
    var x :| x in keys;
    InSomeOrder(keys - {x}) + [x]
  }

  lemma AnyTurn(l: Layout, st: Stage) returns (next: Stage)
    requires st.queue != [] && !Fails(l, st)
    ensures Turn(l, st, next)
  {
    var h := st.queue[0];
    next := TurnWith(l, st, InSomeOrder(ReferrersOf(l, st.gone, h)));
  }

  lemma TurnWith(l: Layout, st: Stage, refs: seq<Key>) returns (next: Stage)
    requires st.queue != [] && !Fails(l, st) && Enumerates(refs, ReferrersOf(l, st.gone, st.queue[0]))
    ensures Turn(l, st, next)
    ensures var orphans := InSomeOrder(OrphansOf(l, st.gone, st.queue[0]));
            next == Stage(st.gone + {st.queue[0]}, st.queue[1..] + (refs + orphans))
  {
    var orphans := InSomeOrder(OrphansOf(l, st.gone, st.queue[0]));
    next := Stage(st.gone + {st.queue[0]}, st.queue[1..] + (refs + orphans));
    assert Queues(l, st, refs, orphans, next);
  }

  lemma TurnReaches(l: Layout, n: nat, st: Stage, next: Stage)
    requires Reachable(l, n, st) && Turn(l, st, next)
    ensures Reachable(l, n + 1, next)
  {
  }

  /** n turns lead from stage a to stage b. */
  ghost predicate Leads(l: Layout, a: Stage, n: nat, b: Stage) {
    if n == 0 then a == b else exists prev :: Leads(l, a, n - 1, prev) && Turn(l, prev, b)
  }

  lemma {:induction false} FirstTurn(l: Layout, a: Stage, n: nat, b: Stage) returns (next: Stage)
    requires n > 0 && Leads(l, a, n, b)
    ensures Turn(l, a, next) && Leads(l, next, n - 1, b)
  {
    hide Turn;
    var prev :| Leads(l, a, n - 1, prev) && Turn(l, prev, b);
    if n == 1 {
      next := b;
    } else {
      next := FirstTurn(l, a, n - 1, prev);
    }
  }

  lemma {:induction false} TwiceNeverEnds(l: Layout, a: Stage, n: nat, b: Stage)
    requires Twice(a) && Leads(l, a, n, b)
    ensures Twice(b) && b.queue != [] && n + |l.storage - b.gone| <= |l.storage - a.gone|
  {
    if n == 0 {
      TwiceHasHead(a);
    } else {
      var prev :| Leads(l, a, n - 1, prev) && Turn(l, prev, b);
      hide Turn, Leads, Twice;
      TwiceNeverEnds(l, a, n - 1, prev);
      TwiceStays(l, prev, b);
      TwiceHasHead(b);
      LeftShrinks(l, prev, b);
    }
  }

  /** Once a key is queued twice the delete fails, whatever comes: no continuation empties the queue, and all of them are short. */
  lemma TwiceFails(l: Layout, n: nat, st: Stage)
    requires Reachable(l, n, st) && Twice(st)
    ensures MayFail(l)
    ensures forall m: nat, next :: Leads(l, st, m, next) ==> next.queue != [] && m <= |l.storage - st.gone|
  {
    TwiceMayFail(l, n, st);
    forall m: nat, next | Leads(l, st, m, next) ensures next.queue != [] && m <= |l.storage - st.gone| {
      TwiceNeverEnds(l, st, m, next);
    }
  }

  lemma {:induction false} TwiceMayFail(l: Layout, n: nat, st: Stage)
    requires Reachable(l, n, st) && Twice(st)
    ensures MayFail(l)
    decreases |l.storage - st.gone|
  {
    if Fails(l, st) {
      assert FailsAt(l, n, st);
    } else {
      TwiceHasHead(st);
      hide Turn, Reachable, Twice, Fails;
      var next := AnyTurn(l, st);
      TurnReaches(l, n, st, next);
      TwiceStays(l, st, next);
      LeftShrinks(l, st, next);
      TwiceMayFail(l, n + 1, next);
    }
  }

  lemma TwiceHasHead(st: Stage)
    requires Twice(st)
    ensures st.queue != []
  {
  }

  lemma LeftShrinks(l: Layout, st: Stage, next: Stage)
    requires Turn(l, st, next)
    ensures |l.storage - next.gone| < |l.storage - st.gone|
  {
    TurnTakesHead(l, st, next);
    var h := st.queue[0];
    assert l.storage - next.gone == (l.storage - st.gone) - {h};
  }

  lemma {:induction false} RunToTheEnd(l: Layout, n: nat, st: Stage)
    requires Reachable(l, n, st)
    ensures MayFail(l) || exists n': nat, st' :: Reachable(l, n', st') && st'.queue == []
    decreases |l.storage - st.gone|
  {
    if Fails(l, st) {
      assert FailsAt(l, n, st);
    } else if st.queue != [] {
      hide Turn, Reachable, Fails;
      var next := AnyTurn(l, st);
      TurnReaches(l, n, st, next);
      LeftShrinks(l, st, next);
      RunToTheEnd(l, n + 1, next);
    }
  }

  lemma MissingFails(l: Layout)
    requires !AllStored(l)
    ensures MayFail(l)
  {
    var j: nat :| !(Rounds(l, j) <= l.storage);
    RunToTheEnd(l, 0, Stage({}, [l.target]));
    if !MayFail(l) {
      var n: nat, st :| Reachable(l, n, st) && st.queue == [];
      var k := SameOutcome(l, n, st);
      LastRound(l, k, j);
      GoneWasStored(l, n, st);
    }
  }

  /** What one turn of the loop queues is a turn here; `now` are the tag sets after the head was untagged. */
  lemma TakesTurn(l: Layout, st: Stage, now: TagSets, refs: seq<Key>, orphans: seq<Key>)
    requires st.queue != [] && !Fails(l, st) && Acyclic(Lists(l.contents)) && NoDuplicates(refs) && NoDuplicates(orphans)
    requires forall x :: x in refs <==> x in l.nodes - st.gone && IsReferrer(l.contents, x, st.queue[0])
    requires forall x :: x in orphans <==> LastLister(l.contents, l.nodes - st.gone, st.queue[0], x) && !IsTagged(now, x)
    requires forall k :: k in l.nodes && k !in st.gone && k != st.queue[0] ==> TagsOf(now, k.digest) == TagsOf(l.tags, k.digest)
    ensures Turn(l, st, Stage(st.gone + {st.queue[0]}, st.queue[1..] + (refs + orphans)))
  {
    NoSelfLoops(l.contents, st.queue[0]);
    assert Queues(l, st, refs, orphans, Stage(st.gone + {st.queue[0]}, st.queue[1..] + (refs + orphans)));
  }

  /** What one turn queues: the referrers of the head among the nodes, and then the orphans that `now` does not tag. */
  ghost predicate QueuedFor(contents: Contents, nodes: set<Key>, now: TagSets, h: Key, added: seq<Descriptor>,
                            refs: seq<Key>, orphans: seq<Key>) {
    && Keys(added) == refs + orphans && NoDuplicates(refs) && NoDuplicates(orphans)
    && (forall x :: x in refs <==> x in nodes && IsReferrer(contents, x, h))
    && (forall x :: x in orphans <==> LastLister(contents, nodes, h, x) && !IsTagged(now, x))
  }

  lemma QueuedKeys(contents: Contents, nodes: set<Key>, now: TagSets, h: Key, added: seq<Descriptor>, refs: seq<Key>, orphans: seq<Key>)
    requires QueuedFor(contents, nodes, now, h, added, refs, orphans)
    ensures forall x :: x in Keys(added) <==> (x in nodes && IsReferrer(contents, x, h)) || (LastLister(contents, nodes, h, x) && !IsTagged(now, x))
    ensures forall x :: x in Keys(added) ==> x in nodes
  {
    forall x ensures x in Keys(added) <==> x in refs || x in orphans {
    }
  }

  /** The same for a queue of descriptors. */
  lemma LoopTurn(l: Layout, gone: set<Key>, now: TagSets, head: Descriptor, rest: seq<Descriptor>, added: seq<Descriptor>,
                 refs: seq<Key>, orphans: seq<Key>)
    requires FromOCI(head) in l.storage && FromOCI(head) !in gone
    requires forall k :: k in l.nodes && k !in gone && k != FromOCI(head) ==> TagsOf(now, k.digest) == TagsOf(l.tags, k.digest)
    requires QueuedFor(l.contents, l.nodes - gone, now, FromOCI(head), added, refs, orphans)
    ensures Acyclic(Lists(l.contents)) ==>
              Turn(l, Stage(gone, Keys([head] + rest)), Stage(gone + {FromOCI(head)}, Keys(rest + added)))
  {
    hide IsReferrer, LastLister, IsTagged, TagsOf, Turn, Acyclic;
    assert Keys([head] + rest)[1..] == Keys(rest) && Keys(rest + added) == Keys(rest) + Keys(added);
    if Acyclic(Lists(l.contents)) {
      TakesTurn(l, Stage(gone, Keys([head] + rest)), now, refs, orphans);
    }
  }

  /** A tag protects a node from going as an orphan, but not from going as a referrer. */
  lemma TaggedGoOnlyAsReferrers(l: Layout, gone: set<Key>)
    requires forall x :: x in gone ==> Justified(l.contents, l.nodes, l.tags, l.target, gone, x)
    requires l.target in gone && forall x, y :: x in gone && y in l.nodes && IsReferrer(l.contents, y, x) ==> y in gone
    ensures forall x :: x in l.nodes && IsTagged(l.tags, x) ==> (x in gone <==> x == l.target || ByReferrer(l, gone, x))
  {
  }
}
