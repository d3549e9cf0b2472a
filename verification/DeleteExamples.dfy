/** Small stores that show what a cascading delete does. */
module DeleteExamples {
  import opened Descriptors
  import opened GraphMemory
  import opened IndexFile
  import opened Reachability
  import opened Resolver
  import opened Cascades
  import opened DeleteOrders
  import opened DeleteFailures

  function Digest(digit: char): string {
    "sha256:" + seq(64, _ => digit)
  }

  const IMAGE := Key(IMAGE_MANIFEST, Digest('a'), 1)
  const SIGNATURE := Key(IMAGE_MANIFEST, Digest('b'), 2)
  const BUNDLE := Key(IMAGE_INDEX, Digest('c'), 3)

  /** A store can hold the three blobs under their digests. */
  lemma DigestsFit()
    ensures IsDigest(IMAGE.digest) && IsDigest(SIGNATURE.digest) && IsDigest(BUNDLE.digest)
    ensures IMAGE.digest != SIGNATURE.digest && SIGNATURE.digest != BUNDLE.digest && BUNDLE.digest != IMAGE.digest
  {
    assert "sha256" + ":" == "sha256:";
    assert Digest('a')[7] == 'a' && Digest('b')[7] == 'b' && Digest('c')[7] == 'c';
  }

  function Manifest(subject: Option<Descriptor>, rest: seq<Descriptor>): Content {
    Content(subject, rest, "", "", map[])
  }

  /** The signature and the bundle have the image as their subject, and the bundle lists the signature. */
  function Signed(k: Key): Content {
    if k == SIGNATURE then Manifest(Some(Plain(IMAGE)), [])
    else if k == BUNDLE then Manifest(Some(Plain(IMAGE)), [Plain(SIGNATURE)])
    else Manifest(None, [])
  }

  ghost function SignedLayout(nodes: set<Key>, tags: TagSets): Layout {
    Layout(Signed, nodes, nodes, tags, IMAGE)
  }

  lemma SignedLists(k: Key)
    ensures Keys(Successors(Signed, k)) ==
              if k == SIGNATURE then [IMAGE] else if k == BUNDLE then [IMAGE, SIGNATURE] else []
  {
    hide Digest;
  }

  function SignedRank(k: Key): nat {
    if k == BUNDLE then 2 else if k == SIGNATURE then 1 else 0
  }

  lemma SignedRankFalls()
    ensures IsRank(Lists(Signed), SignedRank)
  {
    hide Digest;
    forall a, b | b in Lists(Signed)(a) ensures SignedRank(b) < SignedRank(a) {
      SignedLists(a);
    }
  }

  lemma SignedIsAcyclic()
    ensures Acyclic(Lists(Signed))
  {
    hide Digest, IsRank, Acyclic, Signed, SignedRank, Lists;
    SignedRankFalls();
    RankedIsAcyclic(Lists(Signed), SignedRank);
  }

  lemma {:induction false} RoundsAmongNodes(l: Layout, k: nat)
    ensures Rounds(l, k) <= l.nodes + {l.target}
  {
    if k > 0 {
      RoundsAmongNodes(l, k - 1);
    }
  }

  ghost function Untagged(): Layout {
    SignedLayout({IMAGE, SIGNATURE, BUNDLE}, map[])
  }

  lemma UntaggedReferrers(gone: set<Key>, h: Key)
    ensures ReferrersOf(Untagged(), gone, h) == if h == IMAGE then {SIGNATURE, BUNDLE} - gone else {}
  {
    hide Digest;
  }

  lemma UntaggedOrphans(gone: set<Key>, h: Key)
    requires IMAGE in gone || h == IMAGE
    ensures OrphansOf(Untagged(), gone, h) == if h == BUNDLE && BUNDLE !in gone then {SIGNATURE} - gone else {}
  {
    hide Digest;
    forall k ensures Keys(Successors(Signed, k)) ==
               if k == SIGNATURE then [IMAGE] else if k == BUNDLE then [IMAGE, SIGNATURE] else []
    {
      SignedLists(k);
    }
  }

  lemma TakesNext(a: Stage, refs: seq<Key>, orphans: seq<Key>)
    requires a.queue != [] && a.queue[0] in {IMAGE, SIGNATURE, BUNDLE} - a.gone
    requires Enumerates(refs, ReferrersOf(Untagged(), a.gone, a.queue[0])) && Enumerates(orphans, OrphansOf(Untagged(), a.gone, a.queue[0]))
    ensures Turn(Untagged(), a, Stage(a.gone + {a.queue[0]}, a.queue[1..] + (refs + orphans)))
  {
    hide Digest;
    assert Queues(Untagged(), a, refs, orphans, Stage(a.gone + {a.queue[0]}, a.queue[1..] + (refs + orphans)));
  }

  /** The image goes first, and its two referrers are queued in either order. */
  lemma ImageFirst(refs: seq<Key>)
    requires refs == [BUNDLE, SIGNATURE] || refs == [SIGNATURE, BUNDLE]
    ensures Reachable(Untagged(), 1, Stage({IMAGE}, refs))
  {
    hide Digest;
    var start := Stage({}, [IMAGE]);
    UntaggedReferrers({}, IMAGE);
    UntaggedOrphans({}, IMAGE);
    TakesNext(start, refs, []);
    assert {} + {IMAGE} == {IMAGE} && [IMAGE][1..] + (refs + []) == refs;
    assert Reachable(Untagged(), 0, start);
  }

  lemma BundleNext(next: Stage)
    ensures Turn(Untagged(), Stage({IMAGE}, [BUNDLE, SIGNATURE]), next) <==> next == Stage({IMAGE, BUNDLE}, [SIGNATURE, SIGNATURE])
  {
    hide Digest;
    var a := Stage({IMAGE}, [BUNDLE, SIGNATURE]);
    UntaggedReferrers({IMAGE}, BUNDLE);
    UntaggedOrphans({IMAGE}, BUNDLE);
    assert [BUNDLE, SIGNATURE][1..] + ([] + [SIGNATURE]) == [SIGNATURE, SIGNATURE] && {IMAGE} + {BUNDLE} == {IMAGE, BUNDLE};
    if Turn(Untagged(), a, next) {
      var refs, orphans :| Queues(Untagged(), a, refs, orphans, next);
      hide ReferrersOf, OrphansOf;
      ListedAmong(refs, {});
      JustOne(orphans, SIGNATURE);
    }
    TakesNext(a, [], [SIGNATURE]);
  }

  lemma ListedAmong(s: seq<Key>, keys: set<Key>)
    requires Enumerates(s, keys)
    ensures forall i :: 0 <= i < |s| ==> s[i] in keys
    ensures keys == {} ==> s == []
    ensures |s| > 1 ==> s[0] != s[1]
  {
    assert forall i :: 0 <= i < |s| ==> s[i] in s;
    if s != [] {
      assert s[0] in keys;
    }
  }

  lemma JustOne(s: seq<Key>, x: Key)
    requires Enumerates(s, {x})
    ensures s == [x]
  {
    ListedAmong(s, {x});
    assert x in s;
  }

  lemma SignatureNext(queue: seq<Key>)
    requires queue != [] && queue[0] == SIGNATURE
    ensures Turn(Untagged(), Stage({IMAGE}, queue), Stage({IMAGE, SIGNATURE}, queue[1..]))
    ensures Turn(Untagged(), Stage({IMAGE, BUNDLE}, queue), Stage({IMAGE, BUNDLE, SIGNATURE}, queue[1..]))
  {
    hide Digest;
    forall gone | gone == {IMAGE} || gone == {IMAGE, BUNDLE}
      ensures Turn(Untagged(), Stage(gone, queue), Stage(gone + {SIGNATURE}, queue[1..]))
    {
      UntaggedReferrers(gone, SIGNATURE);
      UntaggedOrphans(gone, SIGNATURE);
      TakesNext(Stage(gone, queue), [], []);
      assert queue[1..] + ([] + []) == queue[1..];
    }
    assert {IMAGE} + {SIGNATURE} == {IMAGE, SIGNATURE} && {IMAGE, BUNDLE} + {SIGNATURE} == {IMAGE, BUNDLE, SIGNATURE};
  }

  lemma AllIsStored()
    ensures AllStored(Untagged()) && |Untagged().storage - {IMAGE, BUNDLE}| == 1
  {
    hide Digest;
    forall k: nat ensures Rounds(Untagged(), k) <= Untagged().storage { RoundsAmongNodes(Untagged(), k); }
    assert {IMAGE, SIGNATURE, BUNDLE} - {IMAGE, BUNDLE} == {SIGNATURE};
  }

  lemma BundleLeadsNowhere(n: nat, st: Stage)
    requires Leads(Untagged(), Stage({IMAGE}, [BUNDLE, SIGNATURE]), n, st)
    ensures st.queue != [] && n <= 2
  {
    hide Digest, Untagged, Turn, AllStored;
    var l, a, b := Untagged(), Stage({IMAGE}, [BUNDLE, SIGNATURE]), Stage({IMAGE, BUNDLE}, [SIGNATURE, SIGNATURE]);
    assert Twice(b) by { assert b.queue[0] == b.queue[1]; }
    AllIsStored();
    hide Twice;
    if n > 0 {
      var next := FirstTurn(l, a, n, st);
      BundleNext(next);
      hide Leads;
      TwiceNeverEnds(l, b, n - 1, st);
    }
  }

  /** Deleting the image of an untagged store in which all is stored: with the bundle queued before the signature it always fails half-way. */
  lemma BundleFirstFails(n: nat, st: Stage)
    ensures AllStored(Untagged()) && Reachable(Untagged(), 1, Stage({IMAGE}, [BUNDLE, SIGNATURE]))
    ensures Leads(Untagged(), Stage({IMAGE}, [BUNDLE, SIGNATURE]), n, st) ==> st.queue != [] && n <= 2
    ensures FailsAt(Untagged(), 3, Stage({IMAGE, BUNDLE, SIGNATURE}, [SIGNATURE]))
  {
    hide Digest, Turn, AllStored, Reachable, Leads;
    var l, a, b := Untagged(), Stage({IMAGE}, [BUNDLE, SIGNATURE]), Stage({IMAGE, BUNDLE}, [SIGNATURE, SIGNATURE]);
    AllIsStored();
    ImageFirst([BUNDLE, SIGNATURE]);
    BundleNext(b);
    SignatureNext(b.queue);
    assert b.queue[1..] == [SIGNATURE];
    TurnReaches(l, 1, a, b);
    TurnReaches(l, 2, b, Stage({IMAGE, BUNDLE, SIGNATURE}, [SIGNATURE]));
    if Leads(l, a, n, st) {
      BundleLeadsNowhere(n, st);
    }
  }

  /** With the signature first it succeeds. */
  lemma SignatureFirstSucceeds()
    ensures Reachable(Untagged(), 3, Stage({IMAGE, SIGNATURE, BUNDLE}, []))
  {
    hide Digest;
    var l, a, b := Untagged(), Stage({IMAGE}, [SIGNATURE, BUNDLE]), Stage({IMAGE, SIGNATURE}, [BUNDLE]);
    ImageFirst([SIGNATURE, BUNDLE]);
    SignatureNext(a.queue);
    assert a.queue[1..] == [BUNDLE];
    TurnReaches(l, 1, a, b);
    UntaggedReferrers({IMAGE, SIGNATURE}, BUNDLE);
    UntaggedOrphans({IMAGE, SIGNATURE}, BUNDLE);
    TakesNext(b, [], []);
    assert b.queue[1..] + ([] + []) == [] && b.gone + {BUNDLE} == {IMAGE, SIGNATURE, BUNDLE};
    hide Turn;
    TurnReaches(l, 2, b, Stage({IMAGE, SIGNATURE, BUNDLE}, []));
  }

  /** Deleting the image never fails here, and always takes the signature with it although it is tagged. */
  lemma TaggedSignatureGoes(n: nat, st: Stage)
    ensures var l := SignedLayout({IMAGE, SIGNATURE}, map[SIGNATURE.digest := {SIGNATURE.digest, "v1"}]);
            && IsTagged(l.tags, SIGNATURE) && !MayFail(l)
            && (Reachable(l, n, st) && st.queue == [] ==> SIGNATURE in st.gone)
  {
    var l := SignedLayout({IMAGE, SIGNATURE}, map[SIGNATURE.digest := {SIGNATURE.digest, "v1"}]);
    IsTaggedMeans(l.tags, SIGNATURE);
    assert "v1" in TagsOf(l.tags, SIGNATURE.digest);
    forall k: nat ensures Rounds(l, k) <= l.storage { RoundsAmongNodes(l, k); }
    forall k: nat, x ensures !Conflict(l, k, x) {
      RoundsGrow(l, 0, k);
    }
    SignedIsAcyclic();
    SucceedsIff(l);
    if Reachable(l, n, st) && st.queue == [] {
      var k := SameOutcome(l, n, st);
      LastRound(l, k, 1);
      assert IsReferrer(Signed, SIGNATURE, IMAGE);
      assert IMAGE in Rounds(l, 0) && SIGNATURE in Rounds(l, 1);
    }
  }
}
