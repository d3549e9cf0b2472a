/** Applying a batch of changes to a referrers list: the tombstone algorithm and the plain list algorithm it refines. */
module Referrers {
  import opened Descriptors

  datatype Change = Add(referrer: Descriptor) | Remove(referrer: Descriptor)

  const EMPTY_KEY := Key("", "", 0)
  const EMPTY := Plain(EMPTY_KEY)

  predicate IsEmpty(d: Descriptor) {
    FromOCI(d) == EMPTY_KEY
  }

  // ---- The plain list algorithm ----

  predicate Has(rs: seq<Descriptor>, k: Key) {
    exists i :: 0 <= i < |rs| && FromOCI(rs[i]) == k
  }

  /** Drops empty entries and all but the first of the entries with the same key. */
  function Clean(rs: seq<Descriptor>): seq<Descriptor> {
    if rs == [] then [] else
    var front := Clean(rs[..|rs| - 1]);
    var last := rs[|rs| - 1];
    if IsEmpty(last) || Has(front, FromOCI(last)) then front else front + [last]
  }

  function NonEmpty(rs: seq<Descriptor>): seq<Descriptor> {
    if rs == [] then [] else
    var front := NonEmpty(rs[..|rs| - 1]);
    if IsEmpty(rs[|rs| - 1]) then front else front + [rs[|rs| - 1]]
  }

  function Without(rs: seq<Descriptor>, k: Key): seq<Descriptor> {
    if rs == [] then [] else
    var front := Without(rs[..|rs| - 1], k);
    if FromOCI(rs[|rs| - 1]) == k then front else front + [rs[|rs| - 1]]
  }

  /** Appends if absent, or removes. */
  function ApplyOne(rs: seq<Descriptor>, c: Change): seq<Descriptor> {
    var k := FromOCI(c.referrer);
    match c
    case Add(d) => if Has(rs, k) then rs else rs + [d]
    case Remove(_) => Without(rs, k)
  }

  function ApplyAll(rs: seq<Descriptor>, cs: seq<Change>): seq<Descriptor> {
    if cs == [] then rs else ApplyOne(ApplyAll(rs, cs[..|cs| - 1]), cs[|cs| - 1])
  }

  /** What the changes mean for the set of keys alone. */
  function ApplyKey(ks: set<Key>, c: Change): set<Key> {
    if c.Add? then ks + {FromOCI(c.referrer)} else ks - {FromOCI(c.referrer)}
  }

  function ApplyKeys(ks: set<Key>, cs: seq<Change>): set<Key> {
    if cs == [] then ks else ApplyKey(ApplyKeys(ks, cs[..|cs| - 1]), cs[|cs| - 1])
  }

  ghost predicate Distinct(rs: seq<Descriptor>) {
    forall i, j :: 0 <= i < j < |rs| ==> FromOCI(rs[i]) != FromOCI(rs[j])
  }

  // ---- Facts about the plain algorithm ----

  lemma KeySetAppend(rs: seq<Descriptor>, d: Descriptor)
    ensures KeySet(rs + [d]) == KeySet(rs) + {FromOCI(d)}
  {
    var longer := rs + [d];
    assert longer[|rs|] == d;
    assert forall i :: 0 <= i < |rs| ==> longer[i] == rs[i];
    forall k | k in KeySet(rs) + {FromOCI(d)} ensures k in KeySet(longer) {
      if k in KeySet(rs) {
        var i :| 0 <= i < |rs| && FromOCI(rs[i]) == k;
        assert FromOCI(longer[i]) == k;
      }
    }
  }

  lemma KeySetSplit(rs: seq<Descriptor>)
    requires rs != []
    ensures KeySet(rs) == KeySet(rs[..|rs| - 1]) + {FromOCI(rs[|rs| - 1])}
  {
    KeySetAppend(rs[..|rs| - 1], rs[|rs| - 1]);
    assert rs[..|rs| - 1] + [rs[|rs| - 1]] == rs;
  }

  lemma HasKey(rs: seq<Descriptor>, k: Key)
    ensures Has(rs, k) <==> k in KeySet(rs)
  {
  }

  lemma {:induction false} WithoutKeys(rs: seq<Descriptor>, k: Key)
    ensures KeySet(Without(rs, k)) == KeySet(rs) - {k}
    ensures Distinct(rs) ==> Distinct(Without(rs, k))
  {
    if rs != [] {
      var front, last := rs[..|rs| - 1], rs[|rs| - 1];
      WithoutKeys(front, k);
      KeySetSplit(rs);
      if FromOCI(last) != k {
        KeySetAppend(Without(front, k), last);
      }
      if Distinct(rs) {
        DistinctSplit(rs);
        DistinctAppend(Without(front, k), last);
      }
    }
  }

  lemma DistinctAppend(rs: seq<Descriptor>, d: Descriptor)
    requires Distinct(rs) && FromOCI(d) !in KeySet(rs)
    ensures Distinct(rs + [d])
  {
  }

  lemma DistinctSplit(rs: seq<Descriptor>)
    requires rs != [] && Distinct(rs)
    ensures Distinct(rs[..|rs| - 1]) && FromOCI(rs[|rs| - 1]) !in KeySet(rs[..|rs| - 1])
  {
  }

  lemma {:induction false} DistinctSize(rs: seq<Descriptor>)
    requires Distinct(rs)
    ensures |KeySet(rs)| == |rs|
  {
    if rs != [] {
      DistinctSplit(rs);
      DistinctSize(rs[..|rs| - 1]);
      KeySetSplit(rs);
    }
  }

  /** Cleaning keeps exactly the non-empty keys, each once. */
  lemma {:induction false} CleanKeys(rs: seq<Descriptor>)
    ensures Distinct(Clean(rs))
    ensures KeySet(Clean(rs)) == KeySet(rs) - {EMPTY_KEY}
    ensures NonEmpty(Clean(rs)) == Clean(rs)
  {
    if rs != [] {
      var front, last := Clean(rs[..|rs| - 1]), rs[|rs| - 1];
      CleanKeys(rs[..|rs| - 1]);
      KeySetSplit(rs);
      if !IsEmpty(last) && !Has(front, FromOCI(last)) {
        KeySetAppend(front, last);
        DistinctAppend(front, last);
        assert (front + [last])[..|front|] == front;
      }
    }
  }

  lemma ApplyOneKeys(rs: seq<Descriptor>, c: Change)
    ensures KeySet(ApplyOne(rs, c)) == ApplyKey(KeySet(rs), c)
    ensures Distinct(rs) ==> Distinct(ApplyOne(rs, c))
  {
    if c.Add? {
      KeySetAppend(rs, c.referrer);
    } else {
      WithoutKeys(rs, FromOCI(c.referrer));
    }
  }

  /** On keys, applying the changes to the list is adding and removing set elements one by one. */
  lemma {:induction false} ApplyAllKeys(rs: seq<Descriptor>, cs: seq<Change>)
    ensures KeySet(ApplyAll(rs, cs)) == ApplyKeys(KeySet(rs), cs)
    ensures Distinct(rs) ==> Distinct(ApplyAll(rs, cs))
  {
    if cs != [] {
      ApplyAllKeys(rs, cs[..|cs| - 1]);
      ApplyOneKeys(ApplyAll(rs, cs[..|cs| - 1]), cs[|cs| - 1]);
    }
  }

  lemma {:induction false} NonEmptyKeys(rs: seq<Descriptor>)
    ensures KeySet(NonEmpty(rs)) == KeySet(rs) - {EMPTY_KEY}
  {
    if rs != [] {
      var front, last := rs[..|rs| - 1], rs[|rs| - 1];
      NonEmptyKeys(front);
      KeySetSplit(rs);
      if !IsEmpty(last) {
        KeySetAppend(NonEmpty(front), last);
      }
    }
  }

  // ---- The tombstone algorithm ----

  /** `list` with its tombstones and `positions` stand for the plain list `plain`. */
  ghost predicate Stands(list: seq<Descriptor>, positions: map<Key, nat>, plain: seq<Descriptor>) {
    && NonEmpty(list) == NonEmpty(plain)
    && Distinct(plain) && positions.Keys == KeySet(plain)
    && Located(list, positions)
  }

  /** Each key has its position, and every entry that is not a tombstone is where its key says. */
  ghost predicate Located(list: seq<Descriptor>, positions: map<Key, nat>) {
    && (forall k :: k in positions ==> positions[k] < |list| && FromOCI(list[positions[k]]) == k)
    && (forall i :: 0 <= i < |list| && !IsEmpty(list[i]) ==> FromOCI(list[i]) in positions && positions[FromOCI(list[i])] == i)
  }

  lemma StandsAppend(list: seq<Descriptor>, positions: map<Key, nat>, plain: seq<Descriptor>, d: Descriptor)
    requires Stands(list, positions, plain) && FromOCI(d) !in positions
    ensures Stands(list + [d], positions[FromOCI(d) := |list|], plain + [d])
  {
    assert (list + [d])[..|list|] == list;
    assert (plain + [d])[..|plain|] == plain;
    KeySetAppend(plain, d);
    DistinctAppend(plain, d);
  }

  lemma {:induction false} WithoutAbsent(rs: seq<Descriptor>, k: Key)
    requires k !in KeySet(rs)
    ensures Without(rs, k) == rs
  {
    if rs != [] {
      KeySetSplit(rs);
      WithoutAbsent(rs[..|rs| - 1], k);
      assert rs[..|rs| - 1] + [rs[|rs| - 1]] == rs;
    }
  }

  lemma {:induction false} NonEmptyWithout(rs: seq<Descriptor>, k: Key)
    ensures NonEmpty(Without(rs, k)) == Without(NonEmpty(rs), k)
    ensures k == EMPTY_KEY ==> NonEmpty(Without(rs, k)) == NonEmpty(rs)
  {
    if rs != [] {
      var front, last := rs[..|rs| - 1], rs[|rs| - 1];
      NonEmptyWithout(front, k);
      var w, n := Without(front, k), NonEmpty(front);
      assert (w + [last])[..|w|] == w;
      assert (n + [last])[..|n|] == n;
    }
  }

  /** Overwriting the only entry with key k by a tombstone removes k from the non-empty entries. */
  lemma {:induction false} Tombstone(list: seq<Descriptor>, pos: nat, k: Key)
    requires pos < |list| && FromOCI(list[pos]) == k && k != EMPTY_KEY
    requires forall i :: 0 <= i < |list| && i != pos ==> FromOCI(list[i]) != k
    ensures NonEmpty(list[pos := EMPTY]) == Without(NonEmpty(list), k)
  {
    var n := |list| - 1;
    var front := NonEmpty(list[..n]);
    if pos == n {
      assert list[pos := EMPTY][..n] == list[..n];
      NonEmptyKeys(list[..n]);
      WithoutAbsent(front, k);
      assert (front + [list[n]])[..|front|] == front;
    } else {
      assert list[pos := EMPTY][..n] == list[..n][pos := EMPTY];
      Tombstone(list[..n], pos, k);
      assert (front + [list[n]])[..|front|] == front;
    }
  }

  lemma LocatedRemove(list: seq<Descriptor>, positions: map<Key, nat>, k: Key)
    requires Located(list, positions) && k in positions
    ensures Located(list[positions[k] := EMPTY], positions - {k})
    ensures k != EMPTY_KEY ==> forall i :: 0 <= i < |list| && i != positions[k] ==> FromOCI(list[i]) != k
  {
  }

  lemma StandsRemove(list: seq<Descriptor>, positions: map<Key, nat>, plain: seq<Descriptor>, k: Key)
    requires Stands(list, positions, plain) && k in positions
    ensures Stands(list[positions[k] := EMPTY], positions - {k}, Without(plain, k))
  {
    WithoutKeys(plain, k);
    LocatedRemove(list, positions, k);
    assert NonEmpty(list[positions[k] := EMPTY]) == NonEmpty(Without(plain, k)) by {
      NonEmptyWithout(plain, k);
      if k == EMPTY_KEY {
        TombstoneTwice(list, positions[k]);
      } else {
        Tombstone(list, positions[k], k);
      }
    }
  }

  lemma {:induction false} TombstoneTwice(list: seq<Descriptor>, pos: nat)
    requires pos < |list| && IsEmpty(list[pos])
    ensures NonEmpty(list[pos := EMPTY]) == NonEmpty(list)
  {
    var n := |list| - 1;
    if pos == n {
      assert list[pos := EMPTY][..n] == list[..n];
    } else {
      assert list[pos := EMPTY][..n] == list[..n][pos := EMPTY];
      TombstoneTwice(list[..n], pos);
    }
  }

  /** How many of n non-empty entries the compaction keeps: it stops as soon as it has as many as the hint says. */
  ghost function KeptFor(hint: int, n: nat, firstIsEmpty: bool): nat {
    if hint == 0 then (if firstIsEmpty then 0 else n) else if 0 < hint < n then hint else n
  }

  /** What the compaction leaves: the non-empty entries in their order, as many as the hint lets pass. */
  ghost predicate Compacted(all: seq<Descriptor>, hint: int, front: seq<Descriptor>) {
    && front <= NonEmpty(all)
    && |front| == KeptFor(hint, |NonEmpty(all)|, all != [] && IsEmpty(all[0]))
  }

  /** The loop has looked at the first i entries and goes on. */
  ghost predicate Compacting(all: seq<Descriptor>, hint: int, i: nat, kept: seq<Descriptor>) {
    && i <= |all| && kept == NonEmpty(all[..i]) && |kept| <= i
    && (hint > 0 ==> |kept| < hint) && (hint == 0 && i > 0 ==> kept != [] && !IsEmpty(all[0]))
  }

  lemma CompactingStep(all: seq<Descriptor>, hint: int, i: nat, kept: seq<Descriptor>)
    requires Compacting(all, hint, i, kept) && i < |all|
    ensures var next := if IsEmpty(all[i]) then kept else kept + [all[i]];
            if |next| == hint then Compacted(all, hint, next) else Compacting(all, hint, i + 1, next)
  {
    assert all[..i + 1][..i] == all[..i];
    NonEmptyPrefix(all, i + 1);
  }

  lemma CompactingEnds(all: seq<Descriptor>, hint: int, kept: seq<Descriptor>)
    requires Compacting(all, hint, |all|, kept)
    ensures Compacted(all, hint, kept)
  {
    assert all[..|all|] == all;
  }

  /** Compacts the non-empty entries to the front; a hint that is at least their number loses none of them. */
  method RemoveEmptyDescriptors(descs: array<Descriptor>, hint: int) returns (j: nat)
    modifies descs
    ensures j <= descs.Length && Compacted(old(descs[..]), hint, descs[..j])
  {
    ghost var before, kept := descs[..], [];
    j := 0;
    var i := 0;
    assert Compacting(before, hint, 0, []);
    hide Compacting, Compacted;
    while i < descs.Length
      invariant 0 <= i <= descs.Length && j <= i
      invariant Compacting(before, hint, i, kept) && descs[..j] == kept
      invariant forall m :: i <= m < descs.Length ==> descs[m] == before[m]
    {
      var r := descs[i];
      CompactingStep(before, hint, i, kept);
      if !IsEmpty(r) {
        if i > j {
          descs[j] := r;
        }
        j := j + 1;
        kept := kept + [r];
      }
      i := i + 1;
      if j == hint {
        return;
      }
    }
    CompactingEnds(before, hint, kept);
  }

  lemma {:induction false} NonEmptyPrefix(rs: seq<Descriptor>, i: nat)
    requires i <= |rs|
    ensures NonEmpty(rs[..i]) <= NonEmpty(rs)
  {
    if i < |rs| {
      NonEmptyPrefix(rs[..|rs| - 1], i);
      assert rs[..|rs| - 1][..i] == rs[..i];
    } else {
      assert rs[..i] == rs;
    }
  }

  /** The first i stored entries are loaded. */
  ghost predicate Loaded(referrers: seq<Descriptor>, i: nat, list: seq<Descriptor>, positions: map<Key, nat>, changed: bool) {
    && i <= |referrers| && list == Clean(referrers[..i]) && Stands(list, positions, list)
    && |list| <= i && (changed <==> |list| < i) && (!changed ==> list == referrers[..i])
  }

  lemma LoadedStarts(referrers: seq<Descriptor>)
    ensures Loaded(referrers, 0, [], map[], false)
  {
  }

  lemma LoadedSkip(referrers: seq<Descriptor>, i: nat, list: seq<Descriptor>, positions: map<Key, nat>, changed: bool)
    requires i < |referrers| && Loaded(referrers, i, list, positions, changed)
    requires IsEmpty(referrers[i]) || FromOCI(referrers[i]) in positions
    ensures Loaded(referrers, i + 1, list, positions, true)
  {
    assert referrers[..i + 1][..i] == referrers[..i];
    HasKey(list, FromOCI(referrers[i]));
  }

  lemma CleanAppend(rs: seq<Descriptor>, i: nat)
    requires i < |rs| && !IsEmpty(rs[i]) && FromOCI(rs[i]) !in KeySet(Clean(rs[..i]))
    ensures Clean(rs[..i + 1]) == Clean(rs[..i]) + [rs[i]]
  {
    assert rs[..i + 1][..i] == rs[..i];
    HasKey(Clean(rs[..i]), FromOCI(rs[i]));
  }

  lemma LoadedAppend(referrers: seq<Descriptor>, i: nat, list: seq<Descriptor>, positions: map<Key, nat>, changed: bool)
    requires i < |referrers| && Loaded(referrers, i, list, positions, changed)
    requires !IsEmpty(referrers[i]) && FromOCI(referrers[i]) !in positions
    ensures Loaded(referrers, i + 1, list + [referrers[i]], positions[FromOCI(referrers[i]) := |list|], changed)
  {
    StandsAppend(list, positions, list, referrers[i]);
    CleanAppend(referrers, i);
    hide Stands, KeySet, Clean;
  }

  lemma LoadedEnds(referrers: seq<Descriptor>, list: seq<Descriptor>, positions: map<Key, nat>, changed: bool)
    requires Loaded(referrers, |referrers|, list, positions, changed)
    ensures list == Clean(referrers) && Stands(list, positions, list)
    ensures changed <==> Clean(referrers) != referrers
  {
    assert referrers[..|referrers|] == referrers;
  }

  /** The first loop: cleans the stored list. */
  method Load(referrers: seq<Descriptor>) returns (list: seq<Descriptor>, positions: map<Key, nat>, updateRequired: bool)
    ensures list == Clean(referrers) && Stands(list, positions, list)
    ensures updateRequired <==> Clean(referrers) != referrers
  {
    hide Loaded, Clean, Stands;
    list, positions, updateRequired := [], map[], false;
    LoadedStarts(referrers);
    for i := 0 to |referrers|
      invariant Loaded(referrers, i, list, positions, updateRequired)
    {
      var r := referrers[i];
      var key := FromOCI(r);
      if IsEmpty(r) {
        LoadedSkip(referrers, i, list, positions, updateRequired);
        updateRequired := true;
      } else if key in positions {
        LoadedSkip(referrers, i, list, positions, updateRequired);
        updateRequired := true;
      } else {
        LoadedAppend(referrers, i, list, positions, updateRequired);
        list := list + [r];
        positions := positions[key := |list| - 1];
      }
    }
    LoadedEnds(referrers, list, positions, updateRequired);
  }

  /** The second loop: applies the changes with tombstones. */
  method ApplyWithTombstones(list0: seq<Descriptor>, positions0: map<Key, nat>, changes: seq<Change>)
    returns (list: seq<Descriptor>, positions: map<Key, nat>)
    requires Stands(list0, positions0, list0)
    ensures Stands(list, positions, ApplyAll(list0, changes))
  {
    list, positions := list0, positions0;
    for i := 0 to |changes|
      invariant Stands(list, positions, ApplyAll(list0, changes[..i]))
    {
      var c := changes[i];
      var key := FromOCI(c.referrer);
      ghost var plain := ApplyAll(list0, changes[..i]);
      assert changes[..i + 1][..i] == changes[..i];
      HasKey(plain, key);
      match c
      case Add(d) =>
        if key !in positions {
          StandsAppend(list, positions, plain, d);
          list := list + [d];
          positions := positions[key := |list| - 1];
        }
      case Remove(_) =>
        if key in positions {
          StandsRemove(list, positions, plain, key);
          list := list[positions[key] := EMPTY];
          positions := positions - {key};
        } else {
          WithoutAbsent(plain, key);
        }
    }
    assert changes[..|changes|] == changes;
  }

  lemma {:induction false} SameSizeSubset(s: set<Key>, t: set<Key>)
    requires s <= t && |s| == |t|
    ensures s == t
  {
    if s != {} {
      var x :| x in s;
      SameSizeSubset(s - {x}, t - {x});
    }
  }

  lemma {:induction false} NonEmptyShorter(rs: seq<Descriptor>)
    ensures |NonEmpty(rs)| <= |rs|
  {
    if rs != [] {
      NonEmptyShorter(rs[..|rs| - 1]);
    }
  }

  /** The third loop: do all stored referrers survive? */
  method AnyMissing(referrers: seq<Descriptor>, positions: map<Key, nat>) returns (missing: bool)
    ensures missing <==> !(KeySet(referrers) <= positions.Keys)
  {
    missing := false;
    for i := 0 to |referrers|
      invariant missing <==> exists m :: 0 <= m < i && FromOCI(referrers[m]) !in positions
    {
      if FromOCI(referrers[i]) !in positions {
        missing := true;
      }
    }
    if missing {
      var m :| 0 <= m < |referrers| && FromOCI(referrers[m]) !in positions;
      assert FromOCI(referrers[m]) in KeySet(referrers);
    }
  }

  /** With as many keys as entries, nothing is missing exactly when the key sets agree. */
  lemma SameKeys(referrers: seq<Descriptor>, after: set<Key>)
    requires Clean(referrers) == referrers
    ensures |after| == |referrers| && KeySet(referrers) <= after <==> after == KeySet(referrers)
  {
    CleanKeys(referrers);
    DistinctSize(referrers);
    if |after| == |referrers| && KeySet(referrers) <= after {
      SameSizeSubset(KeySet(referrers), after);
    }
  }

  lemma StandsBound(list: seq<Descriptor>, positions: map<Key, nat>, plain: seq<Descriptor>)
    requires Stands(list, positions, plain)
    ensures |NonEmpty(list)| <= |positions|
  {
    DistinctSize(plain);
    NonEmptyShorter(plain);
    assert |positions| == |positions.Keys|;
  }

  /** Returns None for "no referrer update". */
  method ApplyReferrerChanges(referrers: seq<Descriptor>, changes: seq<Change>) returns (updated: Option<seq<Descriptor>>)
    ensures updated.None? <==>
              Clean(referrers) == referrers && ApplyKeys(KeySet(referrers), changes) == KeySet(referrers)
    ensures updated.Some? ==> updated.value == NonEmpty(ApplyAll(Clean(referrers), changes))
  {
    var list, positions, updateRequired := Load(referrers);
    ApplyAllKeys(list, changes);
    ghost var plain := ApplyAll(list, changes);
    list, positions := ApplyWithTombstones(list, positions, changes);
    assert |positions| == |positions.Keys| && positions.Keys == KeySet(plain);
    if !updateRequired {
      SameKeys(referrers, positions.Keys);
      if |positions| == |referrers| {
        updateRequired := AnyMissing(referrers, positions);
        if !updateRequired {
          return None;
        }
      }
    }
    StandsBound(list, positions, plain);
    var buffer := new Descriptor[|list|](i requires 0 <= i < |list| => list[i]);
    assert buffer[..] == list;
    var j := RemoveEmptyDescriptors(buffer, |positions|);
    updated := Some(buffer[..j]);
  }

  // ---- Consequences ----

  ghost predicate AddsNoEmpty(cs: seq<Change>) {
    forall i :: 0 <= i < |cs| && cs[i].Add? ==> !IsEmpty(cs[i].referrer)
  }

  lemma {:induction false} EmptyStaysOut(ks: set<Key>, cs: seq<Change>)
    requires EMPTY_KEY !in ks && AddsNoEmpty(cs)
    ensures EMPTY_KEY !in ApplyKeys(ks, cs)
  {
    if cs != [] {
      EmptyStaysOut(ks, cs[..|cs| - 1]);
    }
  }

  /** Changes that leave the stored list as it was leave its keys, or add the empty one. */
  lemma SameListSameKeys(referrers: seq<Descriptor>, changes: seq<Change>)
    requires NonEmpty(ApplyAll(Clean(referrers), changes)) == referrers
    ensures Clean(referrers) == referrers && ApplyKeys(KeySet(referrers), changes) - {EMPTY_KEY} == KeySet(referrers)
  {
    var after := ApplyAll(Clean(referrers), changes);
    CleanKeys(referrers);
    ApplyAllKeys(Clean(referrers), changes);
    NonEmptyKeys(after);
    NonEmptyDistinct(after);
    CleanOfClean(referrers);
  }

  /** A reported update changes the stored list, unless it started from a clean list and all it did to the keys was to add the empty one. */
  lemma UpdateChangesList(referrers: seq<Descriptor>, changes: seq<Change>)
    requires !(Clean(referrers) == referrers && ApplyKeys(KeySet(referrers), changes) == KeySet(referrers))
    requires !(Clean(referrers) == referrers && ApplyKeys(KeySet(referrers), changes) == KeySet(referrers) + {EMPTY_KEY})
    ensures NonEmpty(ApplyAll(Clean(referrers), changes)) != referrers
  {
    if NonEmpty(ApplyAll(Clean(referrers), changes)) == referrers {
      SameListSameKeys(referrers, changes);
    }
  }

  lemma {:induction false} NonEmptyDistinct(rs: seq<Descriptor>)
    requires Distinct(rs)
    ensures Distinct(NonEmpty(rs))
  {
    if rs != [] {
      DistinctSplit(rs);
      NonEmptyDistinct(rs[..|rs| - 1]);
      NonEmptyKeys(rs[..|rs| - 1]);
      if !IsEmpty(rs[|rs| - 1]) {
        DistinctAppend(NonEmpty(rs[..|rs| - 1]), rs[|rs| - 1]);
      }
    }
  }

  lemma {:induction false} CleanOfClean(rs: seq<Descriptor>)
    requires Distinct(rs) && EMPTY_KEY !in KeySet(rs)
    ensures Clean(rs) == rs
  {
    if rs != [] {
      DistinctSplit(rs);
      KeySetSplit(rs);
      CleanOfClean(rs[..|rs| - 1]);
      HasKey(rs[..|rs| - 1], FromOCI(rs[|rs| - 1]));
      assert rs[..|rs| - 1] + [rs[|rs| - 1]] == rs;
    }
  }

  /**
   The hypothesis is needed: adding an empty descriptor reports an update that leaves the list as it was.  The
   callers in the repository pass descriptors of manifests, which are never empty.
   */
  lemma EmptyAddReportsNoChange(a: Descriptor)
    requires !IsEmpty(a)
    ensures var changes := [Add(EMPTY)];
            && !(Clean([a]) == [a] && ApplyKeys(KeySet([a]), changes) == KeySet([a]))
            && NonEmpty(ApplyAll(Clean([a]), changes)) == [a]
  {
    var changes := [Add(EMPTY)];
    assert [a][..0] == [] && changes[..0] == [];
    assert Clean([a]) == [a];
    assert ApplyAll([a], changes[..0]) == [a];
    HasKey([a], EMPTY_KEY);
    assert KeySet([a]) == {FromOCI(a)} by { KeySetAppend([], a); assert [] + [a] == [a]; assert KeySet([]) == {}; }
    assert ApplyAll([a], changes) == [a, EMPTY];
    assert [a, EMPTY][..1] == [a];
    assert NonEmpty([a]) == [a];
    assert ApplyKeys(KeySet([a]), changes[..0]) == KeySet([a]);
    assert EMPTY_KEY in ApplyKeys(KeySet([a]), changes);
  }
}
