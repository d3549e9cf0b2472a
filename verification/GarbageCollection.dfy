/** Which nodes garbage collection keeps, and when its index rebuild comes to an end. */
module GarbageCollection {
  import opened Descriptors
  import opened GraphMemory
  import opened IndexFile
  import opened Reachability

  /** k is indexed once everything below the roots is indexed. */
  ghost predicate InGraph(contents: Contents, storage: set<Key>, roots: set<Key>, k: Key) {
    exists root :: root in roots && IsBelow(contents, storage, root, k)
  }

  lemma InGraphAdd(contents: Contents, storage: set<Key>, roots: set<Key>, r: Key)
    ensures forall k :: InGraph(contents, storage, roots + {r}, k) <==> InGraph(contents, storage, roots, k) || IsBelow(contents, storage, r, k)
  {
    hide IsBelow;
    forall k ensures InGraph(contents, storage, roots + {r}, k) <==> InGraph(contents, storage, roots, k) || IsBelow(contents, storage, r, k) {
      if InGraph(contents, storage, roots + {r}, k) {
        var root :| root in roots + {r} && IsBelow(contents, storage, root, k);
        assert root in roots || root == r;
      } else if InGraph(contents, storage, roots, k) {
        InGraphGrows(contents, storage, roots, roots + {r}, k);
      } else {
        assert r in roots + {r};
      }
    }
  }

  /** How rebuilding the index ends: with the untagged manifests it keeps, with a fetch error, or not at all. */
  datatype Verdict = Done(accepted: seq<Key>) | Broken | Diverges

  /** Looks at one untagged manifest.  When its subject is not indexed, the source reads the same subject again for ever. */
  ghost function Judge(contents: Contents, storage: set<Key>, roots: set<Key>, accepted: seq<Key>, k: Key): Verdict {
    if CanHaveSubject(k.mediaType) && k !in storage then Broken
    else match Subject(contents, k)
      case None => Done(accepted)
      case Some(s) => if InGraph(contents, storage, roots + ToSet(accepted), FromOCI(s)) then Done(accepted + [k]) else Diverges
  }

  /** The untagged manifests in the order in which the map iteration yields them. */
  ghost function Accept(contents: Contents, storage: set<Key>, roots: set<Key>, ks: seq<Key>): Verdict {
    if ks == [] then Done([])
    else match Accept(contents, storage, roots, ks[..|ks| - 1])
      case Done(accepted) => Judge(contents, storage, roots, accepted, ks[|ks| - 1])
      case other => other
  }

  lemma RootsGrow(roots: set<Key>, accepted: seq<Key>, k: Key)
    ensures roots + ToSet(accepted) + {k} == roots + ToSet(accepted + [k])
  {
    assert forall x :: x in accepted + [k] <==> x in accepted || x == k;
  }

  /** The manifest can be read, and has no subject or one below a tagged manifest. */
  ghost predicate Anchored(contents: Contents, storage: set<Key>, roots: set<Key>, k: Key) {
    && (CanHaveSubject(k.mediaType) ==> k in storage)
    && (Subject(contents, k).Some? ==> InGraph(contents, storage, roots, FromOCI(Subject(contents, k).value)))
  }

  ghost function WithSubject(contents: Contents, ks: seq<Key>): seq<Key> {
    if ks == [] then [] else
    var front := WithSubject(contents, ks[..|ks| - 1]);
    if Subject(contents, ks[|ks| - 1]).Some? then front + [ks[|ks| - 1]] else front
  }

  lemma InGraphGrows(contents: Contents, storage: set<Key>, roots: set<Key>, more: set<Key>, k: Key)
    requires InGraph(contents, storage, roots, k) && roots <= more
    ensures InGraph(contents, storage, more, k)
  {
    hide IsBelow;
    var root :| root in roots && IsBelow(contents, storage, root, k);
    assert root in more;
  }

  /** If every untagged manifest is anchored, the rebuild ends and keeps exactly those with a subject, in every order. */
  lemma {:induction false} AnchoredEnds(contents: Contents, storage: set<Key>, roots: set<Key>, ks: seq<Key>)
    requires forall k :: k in ks ==> Anchored(contents, storage, roots, k)
    ensures Accept(contents, storage, roots, ks) == Done(WithSubject(contents, ks))
  {
    if ks != [] {
      var front, k := ks[..|ks| - 1], ks[|ks| - 1];
      AnchoredEnds(contents, storage, roots, front);
      assert Anchored(contents, storage, roots, k);
      if Subject(contents, k).Some? {
        InGraphGrows(contents, storage, roots, roots + ToSet(WithSubject(contents, front)), FromOCI(Subject(contents, k).value));
      }
    }
  }

  lemma {:induction false} NotDoneStays(contents: Contents, storage: set<Key>, roots: set<Key>, a: seq<Key>, b: seq<Key>)
    requires !Accept(contents, storage, roots, a).Done?
    ensures Accept(contents, storage, roots, a + b) == Accept(contents, storage, roots, a)
  {
    if b == [] {
      assert a + b == a;
    } else {
      NotDoneStays(contents, storage, roots, a, b[..|b| - 1]);
      assert (a + b)[..|a + b| - 1] == a + b[..|b| - 1];
    }
  }

  /** A manifest that is not anchored spoils the rebuild whenever it comes first. */
  lemma UnanchoredFirst(contents: Contents, storage: set<Key>, roots: set<Key>, k: Key, rest: seq<Key>)
    requires !Anchored(contents, storage, roots, k)
    ensures !Accept(contents, storage, roots, [k] + rest).Done?
    ensures (CanHaveSubject(k.mediaType) ==> k in storage) ==> Accept(contents, storage, roots, [k] + rest).Diverges?
  {
    assert [k][..0] == [];
    assert roots + ToSet([]) == roots;
    assert Accept(contents, storage, roots, [k]) == Judge(contents, storage, roots, [], k);
    NotDoneStays(contents, storage, roots, [k], rest);
  }

  /** The keys that tags outside `left` lead to. */
  ghost function KeysOutside(index: References, left: set<string>): set<Key> {
    set r | r in index && IsTag(index, r) && r !in left :: FromOCI(index[r])
  }

  ghost function DigestsOutside(index: References, left: set<string>): set<string> {
    set r | r in index && IsTag(index, r) && r !in left :: index[r].digest
  }

  ghost function TaggedKeys(index: References): set<Key> {
    KeysOutside(index, {})
  }

  lemma NothingOutside(index: References)
    ensures KeysOutside(index, index.Keys) == {} && DigestsOutside(index, index.Keys) == {}
  {
  }

  lemma OutsideStep(index: References, left: set<string>, r: string)
    requires r in left && r in index
    ensures !IsTag(index, r) ==> KeysOutside(index, left - {r}) == KeysOutside(index, left)
    ensures !IsTag(index, r) ==> DigestsOutside(index, left - {r}) == DigestsOutside(index, left)
    ensures IsTag(index, r) ==> KeysOutside(index, left - {r}) == KeysOutside(index, left) + {FromOCI(index[r])}
    ensures IsTag(index, r) ==> DigestsOutside(index, left - {r}) == DigestsOutside(index, left) + {index[r].digest}
  {
    forall x ensures x in index && IsTag(index, x) && x !in left - {r} <==> x in index && IsTag(index, x) && (x !in left || x == r) {
    }
    if IsTag(index, r) {
      assert FromOCI(index[r]) in KeysOutside(index, left - {r});
      assert index[r].digest in DigestsOutside(index, left - {r});
    }
  }

  /** r is a digest that no tag leads to. */
  predicate IsCandidate(index: References, r: string) {
    r in index && r == index[r].digest && !HasTag(index, r)
  }

  ghost function Candidates(index: References, order: seq<string>): seq<Key> {
    if order == [] then [] else
    var front := Candidates(index, order[..|order| - 1]);
    if IsCandidate(index, order[|order| - 1]) then front + [FromOCI(index[order[|order| - 1]])] else front
  }

  /** The references of a rebuilt resolver: known ones, resolving to the same content, closed under digests. */
  ghost predicate Rebuilt(before: References, after: References) {
    forall r :: r in after ==> r in before && FromOCI(after[r]) == FromOCI(before[r]) && after[r].digest in after
  }

  lemma RebuiltIsWellTagged(before: References, after: References)
    requires WellTagged(before) && Rebuilt(before, after)
    ensures WellTagged(after)
  {
    forall r | r in after
      ensures IsDigest(after[r].digest) && (IsDigest(r) ==> r == after[r].digest) && FromOCI(after[after[r].digest]) == FromOCI(after[r])
    {
      assert r in before && FromOCI(after[r]) == FromOCI(before[r]);
    }
  }

  /** Every tag outside `left` is kept as it was. */
  ghost predicate TagsKept(before: References, after: References, left: set<string>) {
    forall r :: IsTag(before, r) && r !in left ==> r in after && after[r] == before[r]
  }

  lemma KeepTag(before: References, after: References, left: set<string>, r: string)
    requires WellTagged(before) && Rebuilt(before, after) && TagsKept(before, after, left) && IsTag(before, r)
    ensures var kept := after[before[r].digest := DeleteRefName(before[r])][r := before[r]];
            Rebuilt(before, kept) && TagsKept(before, kept, left - {r})
  {
    var d := before[r];
    var kept := after[d.digest := DeleteRefName(d)][r := d];
    forall x | x in kept ensures x in before && FromOCI(kept[x]) == FromOCI(before[x]) && kept[x].digest in kept {
      if x != r && x != d.digest {
        assert x in after && kept[x] == after[x];
      }
    }
    forall x | IsTag(before, x) && x !in left - {r} ensures x in kept && kept[x] == before[x] {
      assert IsDigest(d.digest) && !IsDigest(x);
    }
  }

  /** Keeping an untagged manifest adds its digest only. */
  lemma KeepDigest(before: References, after: References, r: string)
    requires WellTagged(before) && Rebuilt(before, after) && TagsKept(before, after, {}) && r in before && r == before[r].digest
    ensures var kept := after[r := DeleteRefName(before[r])]; Rebuilt(before, kept) && TagsKept(before, kept, {})
  {
    var kept := after[r := DeleteRefName(before[r])];
    assert FromOCI(kept[r]) == FromOCI(before[r]) && kept[r].digest == r;
    hide DeleteRefName, IsDigest, WellTagged;
    forall x | x in kept ensures x in before && FromOCI(kept[x]) == FromOCI(before[x]) && kept[x].digest in kept {
      if x != r {
        assert x in after && kept[x] == after[x];
      }
    }
    forall x | IsTag(before, x) ensures x in kept && kept[x] == before[x] {
      assert x != r;
    }
  }

  /** Of the untagged digests looked at so far, exactly those of manifests with a subject are kept. */
  ghost predicate UntaggedKept(contents: Contents, before: References, after: References, done: set<string>) {
    forall r :: IsCandidate(before, r) ==>
      && (r in after <==> r in done && Subject(contents, FromOCI(before[r])).Some?)
      && (r in after ==> after[r] == DeleteRefName(before[r]))
  }

  lemma KeepTagUntagged(contents: Contents, before: References, after: References, done: set<string>, r: string)
    requires UntaggedKept(contents, before, after, done) && IsTag(before, r)
    ensures UntaggedKept(contents, before, after[before[r].digest := DeleteRefName(before[r])][r := before[r]], done)
  {
    assert HasTag(before, before[r].digest);
  }

  lemma KeepDigestUntagged(contents: Contents, before: References, after: References, done: set<string>, r: string)
    requires UntaggedKept(contents, before, after, done) && IsCandidate(before, r) && Subject(contents, FromOCI(before[r])).Some?
    ensures UntaggedKept(contents, before, after[r := DeleteRefName(before[r])], done + {r})
  {
  }

  lemma SkipUntagged(contents: Contents, before: References, after: References, done: set<string>, r: string)
    requires UntaggedKept(contents, before, after, done)
    requires !IsCandidate(before, r) || Subject(contents, FromOCI(before[r])).None?
    ensures UntaggedKept(contents, before, after, done + {r})
  {
  }

  /** The index file still stands for the rebuilt resolver if and only if every untagged manifest has a subject. */
  lemma StillSaved(contents: Contents, before: References, after: References, manifests: seq<Descriptor>)
    requires WellTagged(before) && Rebuilt(before, after) && TagsKept(before, after, {}) && Saved(before, manifests)
    requires UntaggedKept(contents, before, after, before.Keys)
    ensures Saved(after, manifests) <==> forall r :: IsCandidate(before, r) ==> Subject(contents, FromOCI(before[r])).Some?
  {
    RebuiltTags(before, after);
    if forall r :: IsCandidate(before, r) ==> Subject(contents, FromOCI(before[r])).Some? {
      AllStillSaved(contents, before, after, manifests);
    } else {
      var r :| IsCandidate(before, r) && Subject(contents, FromOCI(before[r])).None?;
      LostIsNotSaved(before, after, manifests, r);
    }
  }

  lemma RebuiltTags(before: References, after: References)
    requires Rebuilt(before, after) && TagsKept(before, after, {})
    ensures forall r :: IsTag(after, r) <==> IsTag(before, r)
    ensures forall d :: HasTag(after, d) <==> HasTag(before, d)
  {
    assert forall r :: IsTag(before, r) ==> IsTag(after, r);
    forall d | HasTag(before, d) ensures HasTag(after, d) {
      var r :| r in before && IsTag(before, r) && before[r].digest == d;
      assert r in after && IsTag(after, r) && after[r].digest == d;
    }
    forall d | HasTag(after, d) ensures HasTag(before, d) {
      var r :| r in after && IsTag(after, r) && after[r].digest == d;
      assert r in before && IsTag(before, r) && before[r].digest == d;
    }
  }

  lemma AllStillSaved(contents: Contents, before: References, after: References, manifests: seq<Descriptor>)
    requires Rebuilt(before, after) && TagsKept(before, after, {}) && Saved(before, manifests)
    requires UntaggedKept(contents, before, after, before.Keys)
    requires forall r :: IsTag(after, r) <==> IsTag(before, r)
    requires forall d :: HasTag(after, d) <==> HasTag(before, d)
    requires forall r :: IsCandidate(before, r) ==> Subject(contents, FromOCI(before[r])).Some?
    ensures Saved(after, manifests)
  {
    forall r, d | WrittenAs(before, r, d) ensures WrittenAs(after, r, d) {
      WrittenStill(contents, before, after, r, d);
    }
    forall r | r in after ensures r in before && before[r].digest == after[r].digest { RebuiltReference(before, after, r); }
    SavedTransfers(before, after, manifests);
  }

  lemma SavedTransfers(before: References, after: References, manifests: seq<Descriptor>)
    requires Saved(before, manifests) && forall r, d :: WrittenAs(before, r, d) ==> WrittenAs(after, r, d)
    requires forall r :: r in after ==> r in before && before[r].digest == after[r].digest
    requires forall d :: HasTag(after, d) <==> HasTag(before, d)
    ensures Saved(after, manifests)
  {
    hide WrittenAs, HasTag;
    forall i | 0 <= i < |manifests| ensures Stands(after, manifests[i]) {
      var q :| WrittenAs(before, q, manifests[i]);
      assert WrittenAs(after, q, manifests[i]);
    }
    forall r | r in after && (IsTag(after, r) || !HasTag(after, after[r].digest)) ensures Written(after, r, manifests) {
      assert Written(before, r, manifests);
      var i :| 0 <= i < |manifests| && WrittenAs(before, r, manifests[i]);
      assert WrittenAs(after, r, manifests[i]);
    }
  }

  lemma RebuiltReference(before: References, after: References, r: string)
    requires Rebuilt(before, after) && r in after
    ensures r in before && before[r].digest == after[r].digest
  {
    assert FromOCI(after[r]) == FromOCI(before[r]);
  }

  lemma WrittenStill(contents: Contents, before: References, after: References, r: string, d: Descriptor)
    requires Rebuilt(before, after) && TagsKept(before, after, {}) && UntaggedKept(contents, before, after, before.Keys)
    requires forall x :: IsTag(after, x) <==> IsTag(before, x)
    requires forall x :: HasTag(after, x) <==> HasTag(before, x)
    requires IsCandidate(before, r) ==> Subject(contents, FromOCI(before[r])).Some?
    requires WrittenAs(before, r, d)
    ensures WrittenAs(after, r, d)
  {
    NamedTwice(before[r], r);
    assert IsTag(before, r) || IsCandidate(before, r);
    hide HasTag, DeleteRefName, WithRefName, Rebuilt;
    assert r in after;
  }

  lemma NotWritten(after: References, q: string, d: Descriptor)
    requires !HasTag(after, d.digest) && d.digest !in after
    ensures !WrittenAs(after, q, d)
  {
    NamedTwice(if q in after then after[q] else d, q);
  }

  lemma LostIsNotSaved(before: References, after: References, manifests: seq<Descriptor>, r: string)
    requires WellTagged(before) && Rebuilt(before, after) && Saved(before, manifests) && IsCandidate(before, r) && r !in after
    requires forall d :: HasTag(after, d) <==> HasTag(before, d)
    ensures !Saved(after, manifests)
  {
    assert Written(before, r, manifests);
    var i :| 0 <= i < |manifests| && WrittenAs(before, r, manifests[i]);
    assert manifests[i].digest == r;
    forall q ensures !WrittenAs(after, q, manifests[i]) { NotWritten(after, q, manifests[i]); }
    assert !Stands(after, manifests[i]);
  }

  predicate IsKnownAlgorithm(digest: string) {
    "sha256:" <= digest || "sha384:" <= digest || "sha512:" <= digest
  }

  lemma PrefixedBy(name: string, algorithm: string, encoded: string)
    requires ':' !in algorithm && ':' !in name && name + ":" <= algorithm + ":" + encoded
    ensures algorithm == name
  {
    var s := algorithm + ":" + encoded;
    assert s[|name|] == ':' && s[|algorithm|] == ':';
    assert forall i :: 0 <= i < |algorithm| ==> s[i] == algorithm[i];
    assert forall i :: 0 <= i < |name| ==> s[i] == name[i];
    assert |algorithm| == |name|;
  }

  /** Blobs with a valid digest are of a known algorithm, and those of any other algorithm are not. */
  lemma KnownAlgorithms(digest: string, algorithm: string, encoded: string)
    ensures IsDigest(digest) ==> IsKnownAlgorithm(digest)
    ensures ':' !in algorithm && IsKnownAlgorithm(algorithm + ":" + encoded) ==> algorithm in {"sha256", "sha384", "sha512"}
  {
    assert "sha256" + ":" == "sha256:" && "sha384" + ":" == "sha384:" && "sha512" + ":" == "sha512:";
    if ':' !in algorithm && IsKnownAlgorithm(algorithm + ":" + encoded) {
      var name := if "sha256:" <= algorithm + ":" + encoded then "sha256" else if "sha384:" <= algorithm + ":" + encoded then "sha384" else "sha512";
      PrefixedBy(name, algorithm, encoded);
    }
  }

  datatype GcResult = Returned | FetchFailed | NeverReturns

  ghost function ResultOf(v: Verdict): GcResult {
    match v case Done(_) => Returned case Broken => FetchFailed case Diverges => NeverReturns
  }

  /** What the second loop makes of the next reference. */
  ghost function JudgeNext(contents: Contents, storage: set<Key>, roots: set<Key>, index: References, accepted: seq<Key>, r: string): Verdict {
    if IsCandidate(index, r) then Judge(contents, storage, roots, accepted, FromOCI(index[r])) else Done(accepted)
  }

  /** The rebuild over the first i references of the order. */
  ghost function AcceptUpTo(contents: Contents, storage: set<Key>, index: References, order: seq<string>, i: nat): Verdict
    requires i <= |order|
  {
    Accept(contents, storage, TaggedKeys(index), Candidates(index, order[..i]))
  }

  ghost function Looked(order: seq<string>, i: nat): set<string>
    requires i <= |order|
  {
    set r | r in order[..i]
  }

  lemma LookedStep(order: seq<string>, i: nat)
    requires i < |order|
    ensures Looked(order, i + 1) == Looked(order, i) + {order[i]}
  {
    assert order[..i + 1] == order[..i] + [order[i]];
  }

  lemma UpToEnds(contents: Contents, storage: set<Key>, index: References, order: seq<string>)
    ensures AcceptUpTo(contents, storage, index, order, 0) == Done([]) && Looked(order, 0) == {}
    ensures AcceptUpTo(contents, storage, index, order, |order|) == Accept(contents, storage, TaggedKeys(index), Candidates(index, order))
    ensures Looked(order, |order|) == set r | r in order
  {
    assert order[..0] == [] && order[..|order|] == order;
  }

  lemma CandidateStep(contents: Contents, storage: set<Key>, index: References, order: seq<string>, i: nat, accepted: seq<Key>)
    requires i < |order| && order[i] in index && AcceptUpTo(contents, storage, index, order, i) == Done(accepted)
    ensures AcceptUpTo(contents, storage, index, order, i + 1) == JudgeNext(contents, storage, TaggedKeys(index), index, accepted, order[i])
  {
    var front, k := Candidates(index, order[..i]), FromOCI(index[order[i]]);
    assert order[..i + 1][..i] == order[..i];
    assert (front + [k])[..|front|] == front;
  }

  lemma DigestsOutsideMeans(index: References, d: string)
    ensures d in DigestsOutside(index, {}) <==> HasTag(index, d)
  {
  }

  lemma {:induction false} CandidatesPrefix(index: References, order: seq<string>, i: nat)
    requires i <= |order|
    ensures Candidates(index, order[..i]) <= Candidates(index, order)
  {
    if i == |order| {
      assert order[..i] == order;
    } else {
      CandidatesPrefix(index, order[..|order| - 1], i);
      assert order[..|order| - 1][..i] == order[..i];
    }
  }

  /** Once the rebuild has failed or hangs, the rest of the order does not matter. */
  lemma CandidatesEnd(contents: Contents, storage: set<Key>, index: References, order: seq<string>, i: nat)
    requires i <= |order| && !AcceptUpTo(contents, storage, index, order, i).Done?
    ensures Accept(contents, storage, TaggedKeys(index), Candidates(index, order)) == AcceptUpTo(contents, storage, index, order, i)
  {
    hide Candidates, Accept, Judge, TaggedKeys;
    CandidatesPrefix(index, order, i);
    var a, all := Candidates(index, order[..i]), Candidates(index, order);
    assert all == a + all[|a|..];
    NotDoneStays(contents, storage, TaggedKeys(index), a, all[|a|..]);
  }

  /** A map iteration yields every key once, in any order. */
  ghost predicate IsIteration(index: References, order: seq<string>) {
    multiset(order) == multiset(index.Keys)
  }

  lemma IterationCovers(index: References, order: seq<string>, r: string)
    requires IsIteration(index, order)
    ensures r in order <==> r in index
  {
    assert r in order <==> r in multiset(order);
    assert r in multiset(index.Keys) <==> r in index.Keys;
  }

  lemma {:induction false} CandidatesHold(index: References, order: seq<string>)
    ensures forall k :: k in Candidates(index, order) <==> exists r :: r in order && IsCandidate(index, r) && FromOCI(index[r]) == k
  {
    if order != [] {
      var front, last := order[..|order| - 1], order[|order| - 1];
      CandidatesHold(index, front);
      assert order == front + [last];
    }
  }

  lemma {:induction false} CandidatesAfter(index: References, r: string, rest: seq<string>)
    requires IsCandidate(index, r)
    ensures Candidates(index, [r] + rest) == [FromOCI(index[r])] + Candidates(index, rest)
  {
    if rest == [] {
      assert [r] + rest == [r] && [r][..0] == [];
    } else {
      CandidatesAfter(index, r, rest[..|rest| - 1]);
      assert ([r] + rest)[..|rest|] == [r] + rest[..|rest| - 1];
    }
  }

  ghost function Enumerate(s: set<string>): (order: seq<string>)
    ensures multiset(order) == multiset(s)
  {
    if s == {} then [] else
    var r :| r in s;
    assert s == (s - {r}) + {r};
    [r] + Enumerate(s - {r})
  }

  /** The rebuild returns nil in every iteration order: it neither hangs nor fails to fetch a manifest. */
  ghost predicate EveryOrderEnds(contents: Contents, storage: set<Key>, index: References) {
    forall order :: IsIteration(index, order) ==> Accept(contents, storage, TaggedKeys(index), Candidates(index, order)).Done?
  }

  ghost predicate AllAnchored(contents: Contents, storage: set<Key>, index: References) {
    forall r :: IsCandidate(index, r) ==> Anchored(contents, storage, TaggedKeys(index), FromOCI(index[r]))
  }

  lemma AllAnchoredEnds(contents: Contents, storage: set<Key>, index: References, order: seq<string>)
    requires AllAnchored(contents, storage, index)
    ensures Accept(contents, storage, TaggedKeys(index), Candidates(index, order)) == Done(WithSubject(contents, Candidates(index, order)))
  {
    CandidatesHold(index, order);
    AnchoredEnds(contents, storage, TaggedKeys(index), Candidates(index, order));
  }

  lemma CanComeFirst(index: References, r: string)
    requires r in index
    ensures IsIteration(index, [r] + Enumerate(index.Keys - {r}))
  {
    assert index.Keys == (index.Keys - {r}) + {r};
    hide Enumerate;
  }

  lemma BadOrder(contents: Contents, storage: set<Key>, index: References, r: string)
    requires IsCandidate(index, r) && !Anchored(contents, storage, TaggedKeys(index), FromOCI(index[r]))
    ensures !EveryOrderEnds(contents, storage, index)
  {
    assert r in index;
    hide Accept, Candidates, Anchored, TaggedKeys, IsCandidate, IsIteration, Enumerate;
    var rest := Enumerate(index.Keys - {r});
    CanComeFirst(index, r);
    CandidatesAfter(index, r, rest);
    UnanchoredFirst(contents, storage, TaggedKeys(index), FromOCI(index[r]), Candidates(index, rest));
  }

  /** The rebuild ends in every iteration order if and only if every untagged manifest is anchored. */
  lemma EndsIffAnchored(contents: Contents, storage: set<Key>, index: References)
    ensures EveryOrderEnds(contents, storage, index) <==> AllAnchored(contents, storage, index)
  {
    if AllAnchored(contents, storage, index) {
      forall order | IsIteration(index, order)
        ensures Accept(contents, storage, TaggedKeys(index), Candidates(index, order)).Done?
      {
        AllAnchoredEnds(contents, storage, index, order);
      }
    } else {
      var r :| IsCandidate(index, r) && !Anchored(contents, storage, TaggedKeys(index), FromOCI(index[r]));
      BadOrder(contents, storage, index, r);
    }
  }

  /** Whatever is indexed below known roots is a known key, and a stored one if it is a manifest. */
  lemma InGraphKnown(contents: Contents, storage: set<Key>, roots: set<Key>, keyOf: string -> Key, k: Key)
    requires InGraph(contents, storage, roots, k)
    requires forall root :: root in roots ==> keyOf(root.digest) == root
    requires ListsKnownKeys(contents, storage, keyOf)
    ensures keyOf(k.digest) == k && Indexable(storage, k)
  {
    var root :| root in roots && IsBelow(contents, storage, root, k);
    var n: nat :| BelowIn(contents, storage, root, k, n);
    if n > 0 {
      var m :| BelowIn(contents, storage, root, m, n - 1) && m in storage && Names(contents, m, k) && Indexable(storage, k);
      hide BelowIn, Names;
      SuccessorsAreNamed(contents, m, k);
      assert k in SuccessorKeys(contents, m);
    }
  }

  /** Stored content describes each digest with its one media type and size. */
  ghost predicate ListsKnownKeys(contents: Contents, storage: set<Key>, keyOf: string -> Key) {
    forall n, k :: n in storage && k in SuccessorKeys(contents, n) ==> keyOf(k.digest) == k
  }

  lemma {:induction false} AcceptedAmong(contents: Contents, storage: set<Key>, roots: set<Key>, ks: seq<Key>)
    ensures Accept(contents, storage, roots, ks).Done? ==> forall k :: k in Accept(contents, storage, roots, ks).accepted ==> k in ks
  {
    if ks != [] {
      AcceptedAmong(contents, storage, roots, ks[..|ks| - 1]);
    }
  }

  /** A digest has one key, so a blob is kept by its digest exactly when its key is indexed. */
  predicate KeptBy(digests: set<string>, k: Key) {
    !IsDigest(k.digest) || k.digest in digests
  }

  /** The blobs that stay when everything outside the graph is swept; files whose name is no valid digest are left alone. */
  ghost function Survivors(contents: Contents, storage: set<Key>, roots: set<Key>): set<Key> {
    set k | k in storage && (!IsDigest(k.digest) || InGraph(contents, storage, roots, k))
  }

  /** The untagged manifests that have a subject. */
  ghost function ReferrerKeys(contents: Contents, index: References): set<Key> {
    set r | r in index && IsCandidate(index, r) && Subject(contents, FromOCI(index[r])).Some? :: FromOCI(index[r])
  }

  lemma {:induction false} WithSubjectHolds(contents: Contents, ks: seq<Key>)
    ensures forall k :: k in WithSubject(contents, ks) <==> k in ks && Subject(contents, k).Some?
  {
    if ks != [] {
      WithSubjectHolds(contents, ks[..|ks| - 1]);
      assert ks == ks[..|ks| - 1] + [ks[|ks| - 1]];
    }
  }

  lemma EveryReferrerAccepted(contents: Contents, index: References, order: seq<string>)
    requires IsIteration(index, order)
    ensures ToSet(WithSubject(contents, Candidates(index, order))) == ReferrerKeys(contents, index)
  {
    WithSubjectHolds(contents, Candidates(index, order));
    CandidatesHold(index, order);
    forall r ensures r in order <==> r in index { IterationCovers(index, order, r); }
  }

  /** The tagged manifests and everything below them are among the survivors. */
  ghost predicate TaggedSurvive(contents: Contents, storage: set<Key>, index: References, survivors: set<Key>) {
    forall r, k :: IsTag(index, r) && k in storage && IsBelow(contents, storage, FromOCI(index[r]), k) ==> k in survivors
  }

  lemma SurvivorsHoldTagged(contents: Contents, storage: set<Key>, index: References, more: set<Key>)
    ensures TaggedSurvive(contents, storage, index, Survivors(contents, storage, TaggedKeys(index) + more))
  {
    hide IsBelow;
    forall r, k | IsTag(index, r) && k in storage && IsBelow(contents, storage, FromOCI(index[r]), k)
      ensures InGraph(contents, storage, TaggedKeys(index) + more, k)
    {
      assert FromOCI(index[r]) in TaggedKeys(index) + more;
    }
  }

  /** The stored manifest behind k lists d, which is stored too. */
  ghost predicate ListsStored(contents: Contents, storage: set<Key>, k: Key, d: Descriptor) {
    k in storage && IsManifest(k.mediaType) && d in contents(k).rest && FromOCI(d) in storage
  }

  /** What a stored tagged manifest lists, its config and layers among it, is among the survivors if it was stored. */
  ghost predicate ListedSurvive(contents: Contents, storage: set<Key>, index: References, survivors: set<Key>) {
    forall r, d :: IsTag(index, r) && ListsStored(contents, storage, FromOCI(index[r]), d) ==> FromOCI(d) in survivors
  }

  lemma TaggedKeepListed(contents: Contents, storage: set<Key>, index: References, survivors: set<Key>)
    requires TaggedSurvive(contents, storage, index, survivors)
    ensures ListedSurvive(contents, storage, index, survivors)
  {
    forall r, d | IsTag(index, r) && ListsStored(contents, storage, FromOCI(index[r]), d) ensures FromOCI(d) in survivors {
      var k := FromOCI(index[r]);
      assert BelowIn(contents, storage, k, k, 0);
      assert Names(contents, k, FromOCI(d)) && BelowIn(contents, storage, k, FromOCI(d), 1);
    }
  }
}
