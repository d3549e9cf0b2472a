/** When one update for a whole batch gives the list that its changes give one after the other. */
module BatchOrders {
  import opened Descriptors
  import opened Referrers
  import opened MergeProtocol
  import opened MergeLists

  /** One batch for each change. */
  function Singles(cs: seq<Change>): (batches: seq<seq<Change>>)
    ensures |batches| == |cs| && forall i :: 0 <= i < |cs| ==> batches[i] == [cs[i]]
  {
    seq(|cs|, i requires 0 <= i < |cs| => [cs[i]])
  }

  ghost predicate InSequence(list: seq<Descriptor>, cs: seq<Change>) {
    Then(list, cs) == ThenAll(list, Singles(cs))
  }

  // ---- One change after the other is the plain algorithm ----

  lemma Cleaned(list: seq<Descriptor>)
    ensures Distinct(Clean(list)) && EMPTY_KEY !in KeySet(Clean(list)) && Clean(Clean(list)) == Clean(list)
  {
    CleanKeys(list);
    CleanOfClean(Clean(list));
  }

  lemma {:induction false} NonEmptyKeepsAll(list: seq<Descriptor>)
    requires EMPTY_KEY !in KeySet(list)
    ensures NonEmpty(list) == list
  {
    if list != [] {
      KeySetSplit(list);
      NonEmptyKeepsAll(list[..|list| - 1]);
      assert list[..|list| - 1] + [list[|list| - 1]] == list;
    }
  }

  /** Changes that add no empty descriptor keep a clean list clean. */
  lemma StaysClean(list: seq<Descriptor>, cs: seq<Change>)
    requires AddsNoEmpty(cs)
    ensures var next := ApplyAll(Clean(list), cs); NonEmpty(next) == next && Clean(next) == next
  {
    Cleaned(list);
    ApplyAllKeys(Clean(list), cs);
    EmptyStaysOut(KeySet(Clean(list)), cs);
    NonEmptyKeepsAll(ApplyAll(Clean(list), cs));
    CleanOfClean(ApplyAll(Clean(list), cs));
  }

  lemma NoOp(list: seq<Descriptor>, c: Change)
    requires ApplyKey(KeySet(list), c) == KeySet(list)
    ensures ApplyOne(list, c) == list
  {
    HasKey(list, FromOCI(c.referrer));
    if c.Remove? {
      WithoutAbsent(list, FromOCI(c.referrer));
    }
  }

  lemma OneByOne(list: seq<Descriptor>, c: Change)
    requires AddsNoEmpty([c])
    ensures Then(list, [c]) == ApplyAll(Clean(list), [c])
  {
    OneChange(KeySet(list), Clean(list), c);
    StaysClean(list, [c]);
    if Updated(list, [c]).None? {
      NoOp(list, c);
    }
  }

  lemma {:induction false} SinglesApplyAll(list: seq<Descriptor>, cs: seq<Change>)
    requires AddsNoEmpty(cs) && cs != []
    ensures ThenAll(list, Singles(cs)) == ApplyAll(Clean(list), cs)
  {
    var front, last := cs[..|cs| - 1], cs[|cs| - 1];
    assert Singles(cs)[..|cs| - 1] == Singles(front);
    if front == [] {
      assert cs == [last];
      OneByOne(list, last);
    } else {
      SinglesApplyAll(list, front);
      StaysClean(list, front);
      var before := ApplyAll(Clean(list), front);
      OneByOne(before, last);
      OneChange({}, before, last);
    }
  }

  /** For one list: a written update is sequential, and a suppressed one is if the changes undo each other in place. */
  lemma InSequenceIff(list: seq<Descriptor>, cs: seq<Change>)
    requires AddsNoEmpty(cs) && cs != []
    ensures InSequence(list, cs) <==> Updated(list, cs).Some? || ApplyAll(list, cs) == list
  {
    SinglesApplyAll(list, cs);
    StaysClean(list, cs);
  }

  // ---- The condition on the changes alone ----

  /** A referrer is removed and added again, and stays: it moves to the end of the list. */
  ghost predicate Moves(cs: seq<Change>, i: int, j: int) {
    && 0 <= i < j < |cs| && cs[i].Remove? && cs[j].Add? && FromOCI(cs[i].referrer) == FromOCI(cs[j].referrer)
    && forall m :: j < m < |cs| && cs[m].Remove? ==> FromOCI(cs[m].referrer) != FromOCI(cs[j].referrer)
  }

  ghost predicate MovesNothing(cs: seq<Change>) {
    forall i, j :: !Moves(cs, i, j)
  }

  lemma {:induction false} WithoutConcat(a: seq<Descriptor>, b: seq<Descriptor>, k: Key)
    ensures Without(a + b, k) == Without(a, k) + Without(b, k)
  {
    if b == [] {
      assert a + b == a;
    } else {
      WithoutConcat(a, b[..|b| - 1], k);
      assert (a + b)[..|a + b| - 1] == a + b[..|b| - 1];
    }
  }

  /** A change that removes nothing of a prefix leaves it in place. */
  lemma PrefixStays(prefix: seq<Descriptor>, list: seq<Descriptor>, c: Change)
    requires prefix <= list && (c.Remove? ==> FromOCI(c.referrer) !in KeySet(prefix))
    ensures prefix <= ApplyOne(list, c)
  {
    if c.Remove? {
      assert list == prefix + list[|prefix|..];
      WithoutConcat(prefix, list[|prefix|..], FromOCI(c.referrer));
      WithoutAbsent(prefix, FromOCI(c.referrer));
    }
  }

  lemma {:induction false} PrefixStaysAll(prefix: seq<Descriptor>, list: seq<Descriptor>, cs: seq<Change>)
    requires prefix <= list
    requires forall i :: 0 <= i < |cs| && cs[i].Remove? ==> FromOCI(cs[i].referrer) !in KeySet(prefix)
    ensures prefix <= ApplyAll(list, cs)
  {
    if cs != [] {
      PrefixStaysAll(prefix, list, cs[..|cs| - 1]);
      PrefixStays(prefix, ApplyAll(list, cs[..|cs| - 1]), cs[|cs| - 1]);
    }
  }

  /** A removed key that is there in the end was added again after its last removal. */
  lemma {:induction false} AddedAgain(ks: set<Key>, cs: seq<Change>, i: nat) returns (r: nat, a: nat)
    requires i < |cs| && cs[i].Remove? && FromOCI(cs[i].referrer) in ApplyKeys(ks, cs)
    ensures i <= r && Moves(cs, r, a) && FromOCI(cs[r].referrer) == FromOCI(cs[i].referrer)
  {
    var n := |cs| - 1;
    var front, last := cs[..n], cs[n];
    var k := FromOCI(cs[i].referrer);
    assert i < n;
    if last.Add? && FromOCI(last.referrer) == k {
      r, a := i, n;
    } else {
      r, a := AddedAgain(ks, front, i);
      forall m | a < m < |cs| && cs[m].Remove? ensures FromOCI(cs[m].referrer) != k {
        assert m < n ==> front[m] == cs[m];
      }
    }
  }

  lemma SamePrefixSameSize(a: seq<Descriptor>, b: seq<Descriptor>)
    requires a <= b && Distinct(a) && Distinct(b) && KeySet(a) == KeySet(b)
    ensures a == b
  {
    DistinctSize(a);
    DistinctSize(b);
  }

  lemma MovesNothingSuffices(list: seq<Descriptor>, cs: seq<Change>)
    requires AddsNoEmpty(cs) && cs != [] && MovesNothing(cs)
    ensures InSequence(list, cs)
  {
    if Updated(list, cs).None? {
      forall i | 0 <= i < |cs| && cs[i].Remove? ensures FromOCI(cs[i].referrer) !in KeySet(list) {
        if FromOCI(cs[i].referrer) in KeySet(list) {
          var r, a := AddedAgain(KeySet(list), cs, i);
        }
      }
      PrefixStaysAll(list, list, cs);
      CleanKeys(list);
      ApplyAllKeys(list, cs);
      SamePrefixSameSize(list, ApplyAll(list, cs));
    }
    InSequenceIff(list, cs);
  }

  // ---- The condition is needed: a list on which the batch is suppressed although it moves a referrer ----

  ghost function Listed(ks: set<Key>): (list: seq<Descriptor>)
    ensures KeySet(list) == ks && Distinct(list)
  {
    if ks == {} then [] else
    var k :| k in ks;
    var rest := Listed(ks - {k});
    KeySetAppend(rest, Plain(k)); DistinctAppend(rest, Plain(k));
    rest + [Plain(k)]
  }

  function Above(cs: seq<Change>): (n: int)
    ensures n > 0 && forall i :: 0 <= i < |cs| ==> cs[i].referrer.size < n
  {
    if cs == [] then 1 else
    var n := Above(cs[..|cs| - 1]);
    if cs[|cs| - 1].referrer.size < n then n else cs[|cs| - 1].referrer.size + 1
  }

  /** Changes act on each key by itself. */
  lemma {:induction false} KeyByKey(ks: set<Key>, cs: seq<Change>, k: Key)
    ensures k in ApplyKeys({}, cs) ==> k in ApplyKeys(ks, cs)
    ensures k in ApplyKeys(ks, cs) ==> k in ks || k in ApplyKeys({}, cs)
    ensures k in ks && (forall i :: 0 <= i < |cs| ==> FromOCI(cs[i].referrer) != k) ==> k in ApplyKeys(ks, cs)
    ensures k in ApplyKeys({}, cs) ==> exists i :: 0 <= i < |cs| && FromOCI(cs[i].referrer) == k
  {
    if cs != [] {
      KeyByKey(ks, cs[..|cs| - 1], k);
    }
  }

  lemma {:induction false} AddedStays(cs: seq<Change>, j: nat)
    requires j < |cs| && cs[j].Add?
    requires forall m :: j < m < |cs| && cs[m].Remove? ==> FromOCI(cs[m].referrer) != FromOCI(cs[j].referrer)
    ensures FromOCI(cs[j].referrer) in ApplyKeys({}, cs)
  {
    if j < |cs| - 1 {
      AddedStays(cs[..|cs| - 1], j);
    }
  }

  /** The first two entries: the first goes when it is removed, and the second becomes the first for good. */
  lemma {:induction false} SecondComesFirst(list: seq<Descriptor>, cs: seq<Change>, i: nat)
    requires |list| >= 2 && FromOCI(list[0]) != FromOCI(list[1])
    requires forall m :: 0 <= m < |cs| ==> FromOCI(cs[m].referrer) != FromOCI(list[1])
    requires i < |cs| && cs[i].Remove? && FromOCI(cs[i].referrer) == FromOCI(list[0])
    ensures [list[1]] <= ApplyAll(list, cs)
  {
    var front, last := cs[..|cs| - 1], cs[|cs| - 1];
    KeySetAppend([], list[1]);
    assert [] + [list[1]] == [list[1]] && KeySet([]) == {};
    if i < |cs| - 1 {
      SecondComesFirst(list, front, i);
      PrefixStays([list[1]], ApplyAll(list, front), last);
    } else {
      TopTwo(list, front);
      RemovesTop(list, ApplyAll(list, front), last);
    }
  }

  ghost predicate TopOf(top: seq<Descriptor>, list: seq<Descriptor>)
    requires |top| >= 2
  {
    [top[0], top[1]] <= list || [top[1]] <= list
  }

  lemma PairKeys(a: Descriptor, b: Descriptor)
    ensures KeySet([a]) == {FromOCI(a)} && KeySet([a, b]) == {FromOCI(a), FromOCI(b)}
  {
    assert [] + [a] == [a] && [a] + [b] == [a, b] && KeySet([]) == {};
    KeySetAppend([], a);
    KeySetAppend([a], b);
  }

  lemma {:induction false} TopTwo(top: seq<Descriptor>, cs: seq<Change>)
    requires |top| >= 2 && FromOCI(top[0]) != FromOCI(top[1])
    requires forall m :: 0 <= m < |cs| ==> FromOCI(cs[m].referrer) != FromOCI(top[1])
    ensures TopOf(top, ApplyAll(top, cs))
  {
    if cs != [] {
      var before, last := ApplyAll(top, cs[..|cs| - 1]), cs[|cs| - 1];
      TopTwo(top, cs[..|cs| - 1]);
      PairKeys(top[0], top[1]);
      PairKeys(top[1], top[1]);
      if [top[1]] <= before {
        PrefixStays([top[1]], before, last);
      } else if last.Remove? && FromOCI(last.referrer) == FromOCI(top[0]) {
        RemovesTop(top, before, last);
      } else {
        PrefixStays([top[0], top[1]], before, last);
      }
    }
  }

  lemma RemovesTop(top: seq<Descriptor>, list: seq<Descriptor>, c: Change)
    requires |top| >= 2 && FromOCI(top[0]) != FromOCI(top[1]) && TopOf(top, list)
    requires c.Remove? && FromOCI(c.referrer) == FromOCI(top[0])
    ensures [top[1]] <= ApplyOne(list, c)
  {
    PairKeys(top[1], top[1]);
    if [top[1]] <= list {
      PrefixStays([top[1]], list, c);
    } else {
      assert list == [top[0]] + list[1..];
      WithoutConcat([top[0]], list[1..], FromOCI(top[0]));
      assert [top[0]][..0] == [];
      PrefixStays([top[1]], list[1..], c);
    }
  }

  lemma MovedOutOfSequence(cs: seq<Change>, i: int, j: int) returns (list: seq<Descriptor>)
    requires AddsNoEmpty(cs) && Moves(cs, i, j)
    ensures !InSequence(list, cs)
  {
    var k, other := FromOCI(cs[j].referrer), Key("", "", Above(cs));
    var final := ApplyKeys({}, cs);
    AddedStays(cs, j);
    EmptyStaysOut({}, cs);
    KeyByKey({}, cs, other);
    list := MovedList(k, other, final);
    forall x ensures x in ApplyKeys(KeySet(list), cs) <==> x in KeySet(list) {
      KeyByKey(KeySet(list), cs, x);
    }
    assert ApplyKeys(KeySet(list), cs) == KeySet(list);
    SecondComesFirst(list, cs, i);
    assert ApplyAll(list, cs) != list;
    InSequenceIff(list, cs);
  }

  /** A clean list with exactly these keys that starts with k and another key. */
  lemma MovedList(k: Key, other: Key, keys: set<Key>) returns (list: seq<Descriptor>)
    requires k in keys && other !in keys && EMPTY_KEY !in keys && other != EMPTY_KEY
    ensures |list| >= 2 && list[0] == Plain(k) && list[1] == Plain(other)
    ensures KeySet(list) == keys + {other} && Clean(list) == list
  {
    var rest := Listed(keys - {k});
    list := [Plain(k), Plain(other)] + rest;
    PairKeys(Plain(k), Plain(other));
    KeysConcat([Plain(k), Plain(other)], rest);
    assert Distinct(list) by {
      forall a, b | 0 <= a < b < |list| ensures FromOCI(list[a]) != FromOCI(list[b]) {
        assert b >= 2 ==> list[b] == rest[b - 2] && FromOCI(rest[b - 2]) in KeySet(rest);
      }
    }
    CleanOfClean(list);
  }

  lemma {:induction false} KeysConcat(a: seq<Descriptor>, b: seq<Descriptor>)
    ensures KeySet(a + b) == KeySet(a) + KeySet(b)
  {
    if b == [] {
      assert a + b == a;
    } else {
      KeysConcat(a, b[..|b| - 1]);
      KeySetSplit(b);
      KeySetAppend(a + b[..|b| - 1], b[|b| - 1]);
      assert a + b == (a + b[..|b| - 1]) + [b[|b| - 1]];
    }
  }

  /** A batch gives every list what its changes give one by one, if and only if it moves no referrer. */
  lemma AlwaysInSequenceIff(cs: seq<Change>)
    requires AddsNoEmpty(cs) && cs != []
    ensures (forall list :: InSequence(list, cs)) <==> MovesNothing(cs)
  {
    if MovesNothing(cs) {
      forall list ensures InSequence(list, cs) { MovesNothingSuffices(list, cs); }
    } else {
      var i, j :| Moves(cs, i, j);
      var list := MovedOutOfSequence(cs, i, j);
    }
  }
}
