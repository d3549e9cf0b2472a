/** Small stores that show what garbage collection does to untagged manifests. */
module StoreExamples {
  import opened Descriptors
  import opened GraphMemory
  import opened IndexFile
  import opened Resolver
  import opened GarbageCollection
  import opened DeleteExamples
  import opened OciStore

  function KeyOf(digest: string): Key {
    if digest == SIGNATURE.digest then SIGNATURE else if digest == BUNDLE.digest then BUNDLE else IMAGE
  }

  lemma KnownKeys(storage: set<Key>)
    ensures KeyOf(IMAGE.digest) == IMAGE && KeyOf(SIGNATURE.digest) == SIGNATURE
    ensures ListsKnownKeys(Signed, storage, KeyOf)
  {
    DigestsFit();
    hide Digest;
    forall n, k | n in storage && k in SuccessorKeys(Signed, n) ensures KeyOf(k.digest) == k {
      SignedLists(n);
    }
  }

  function Pair(): References {
    map[IMAGE.digest := Plain(IMAGE), SIGNATURE.digest := Plain(SIGNATURE)]
  }

  lemma PairIsUntagged()
    ensures IsIteration(Pair(), [SIGNATURE.digest, IMAGE.digest]) && TaggedKeys(Pair()) == {}
    ensures Candidates(Pair(), [SIGNATURE.digest, IMAGE.digest]) == [SIGNATURE] + [IMAGE]
  {
    DigestsFit();
    hide Digest, IsDigest;
    var order := [SIGNATURE.digest, IMAGE.digest];
    assert Pair().Keys == {SIGNATURE.digest, IMAGE.digest};
    assert order[..1] == [SIGNATURE.digest] && order[..1][..0] == [];
    assert Candidates(Pair(), order[..1]) == [SIGNATURE];
  }

  lemma PairHangs()
    ensures Accept(Signed, {IMAGE, SIGNATURE}, {}, [SIGNATURE] + [IMAGE]).Diverges?
  {
    hide Digest;
    UnanchoredFirst(Signed, {IMAGE, SIGNATURE}, {}, SIGNATURE, [IMAGE]);
  }

  method PushOne() returns (store: Store)
    ensures store.Valid() && store.IndexSaved() && store.contents == Signed && store.keyOf == KeyOf && store.autoSaveIndex
    ensures store.storage == {IMAGE} && store.tagResolver.index == map[IMAGE.digest := Plain(IMAGE)]
    ensures fresh(store) && fresh(store.graph) && fresh(store.tagResolver)
  {
    DigestsFit();
    KnownKeys({});
    hide Digest, IsDigest, ListsKnownKeys, KeyOf, Agree, Saved, Recorded;
    store := new Store(Signed, true, true, KeyOf);
    var ok := store.Push(Plain(IMAGE));
  }

  method PushBoth() returns (store: Store)
    ensures store.Valid() && store.contents == Signed && store.keyOf == KeyOf
    ensures store.storage == {IMAGE, SIGNATURE} && store.tagResolver.index == Pair()
    ensures fresh(store) && fresh(store.graph) && fresh(store.tagResolver)
  {
    DigestsFit();
    KnownKeys({});
    hide Digest, IsDigest, ListsKnownKeys, KeyOf, Agree, Saved, Recorded;
    store := PushOne();
    var ok := store.Push(Plain(SIGNATURE));
  }

  /** An untagged image and its signature: if the signature comes first, the collection never returns. */
  method SignatureFirstHangs() returns (result: GcResult)
    ensures result == NeverReturns
  {
    KnownKeys({IMAGE, SIGNATURE});
    PairIsUntagged();
    PairHangs();
    hide Digest, Pair, Accept, Candidates, IsIteration, TaggedKeys, ListsKnownKeys, KeyOf, Survivors, AllAnchored, Agree, Saved, Recorded, TaggedSurvive, ListedSurvive;
    var store := PushBoth();
    ghost var accepted;
    result, accepted := store.GC([SIGNATURE.digest, IMAGE.digest]);
  }

  lemma Alone()
    ensures var index: References := map[IMAGE.digest := Plain(IMAGE)];
            && IsIteration(index, [IMAGE.digest]) && IsCandidate(index, IMAGE.digest)
            && Subject(Signed, IMAGE).None? && AllAnchored(Signed, {IMAGE}, index)
  {
    hide Digest;
    var index: References := map[IMAGE.digest := Plain(IMAGE)];
    assert index.Keys == {IMAGE.digest};
  }

  /** An untagged image: after the collection the index file still lists it, and the resolver does not. */
  method ForgottenImage() returns (store: Store, result: GcResult)
    ensures result == Returned && store.Valid() && !store.IndexSaved()
  {
    KnownKeys({IMAGE});
    Alone();
    hide Digest, Accept, Candidates, IsIteration, TaggedKeys, ListsKnownKeys, KeyOf, Survivors, AllAnchored, Agree, Saved, Recorded, TaggedSurvive, ListedSurvive;
    store := PushOne();
    ghost var accepted;
    result, accepted := store.GC([IMAGE.digest]);
  }
}
