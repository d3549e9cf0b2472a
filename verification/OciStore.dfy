/** The OCI layout store: blobs, predecessor graph, tag resolver and index.json. */
module OciStore {
  import opened Descriptors
  import opened GraphMemory
  import opened IndexFile
  import opened Reachability
  import opened Resolver
  import opened GarbageCollection
  import opened Cascades
  import opened DeleteOrders
  import opened DeleteFailures
  import opened Sequences
  import G = GraphMemory

  /** The references that do not resolve to anything in `gone`. */
  ghost function Restrict(index: References, gone: set<Key>): References {
    map r | r in index && FromOCI(index[r]) !in gone :: index[r]
  }

  lemma RestrictTwice(index: References, gone: set<Key>, k: Key)
    ensures Restrict(Restrict(index, gone), {k}) == Restrict(index, gone + {k})
  {
  }

  /** What is left of a layout and its references when the keys in `gone` are gone. */
  ghost predicate Left(keyOf: string -> Key, l: Layout, index: References, gone: set<Key>,
                       storage: set<Key>, nodes: set<Key>, now: References, tags: TagSets) {
    && gone <= l.storage && storage == l.storage - gone && nodes == l.nodes - gone && now == Restrict(index, gone)
    && (forall k :: k in l.nodes && k !in gone ==> TagsOf(tags, k.digest) == TagsOf(l.tags, k.digest))
    && (forall k :: k in l.nodes ==> keyOf(k.digest) == k)
  }

  lemma OneMoreGone(keyOf: string -> Key, l: Layout, index: References, gone: set<Key>, h: Key,
                    storage: set<Key>, nodes: set<Key>, now: References, tags: TagSets, tags': TagSets)
    requires Left(keyOf, l, index, gone, storage, nodes, now, tags) && h in storage && keyOf(h.digest) == h
    requires forall d :: d != h.digest ==> TagsOf(tags', d) == TagsOf(tags, d)
    ensures Left(keyOf, l, index, gone + {h}, storage - {h}, nodes - {h}, Restrict(now, {h}), tags')
    ensures h in l.storage && h !in gone && nodes == l.nodes - gone && forall k :: k in l.nodes ==> keyOf(k.digest) == k
    ensures forall k :: k in l.nodes && k !in gone && k != h ==> TagsOf(tags', k.digest) == TagsOf(l.tags, k.digest)
  {
    RestrictTwice(index, gone, h);
    assert (l.storage - gone) - {h} == l.storage - (gone + {h});
    assert (l.nodes - gone) - {h} == l.nodes - (gone + {h});
  }

  /** A directory that a store can be opened over: one key per digest everywhere, and an index file that tags consistently. */
  ghost predicate Openable(keyOf: string -> Key, contents: Contents, stored: set<Key>, saved: seq<Descriptor>) {
    && (forall k :: k in stored ==> keyOf(k.digest) == k) && ListsKnownKeys(contents, stored, keyOf)
    && (forall i :: 0 <= i < |saved| ==> keyOf(saved[i].digest) == FromOCI(saved[i]))
    && WellTagged(Load(saved))
  }

  lemma OpenedAgrees(keyOf: string -> Key, contents: Contents, stored: set<Key>, saved: seq<Descriptor>, nodes: set<Key>)
    requires Openable(keyOf, contents, stored, saved)
    requires forall k :: k in nodes <==> InGraph(contents, stored, ToSet(Keys(saved)), k)
    ensures Agree(keyOf, stored, nodes, Load(saved))
  {
    forall k | k in ToSet(Keys(saved)) ensures keyOf(k.digest) == k {
      var i :| 0 <= i < |saved| && Keys(saved)[i] == k;
    }
    forall k | k in nodes ensures keyOf(k.digest) == k && Indexable(stored, k) {
      InGraphKnown(contents, stored, ToSet(Keys(saved)), keyOf, k);
    }
    LoadedFrom(saved);
    forall r | r in Load(saved) ensures keyOf(Load(saved)[r].digest) == FromOCI(Load(saved)[r]) {
      var i :| 0 <= i < |saved| && Defines(saved[i], r, Load(saved)[r]);
    }
  }

  lemma LoadNext(saved: seq<Descriptor>, i: nat)
    requires i < |saved|
    ensures Load(saved[..i + 1]) == LoadOne(Load(saved[..i]), saved[i])
    ensures ToSet(Keys(saved)[..i + 1]) == ToSet(Keys(saved)[..i]) + {FromOCI(saved[i])}
  {
    assert saved[..i + 1][..i] == saved[..i];
    assert Keys(saved)[..i + 1] == Keys(saved)[..i] + [FromOCI(saved[i])];
  }

  /** What a valid store leaves in its directory can be opened. */
  lemma SavedIsOpenable(keyOf: string -> Key, contents: Contents, stored: set<Key>, nodes: set<Key>, index: References, saved: seq<Descriptor>)
    requires Agree(keyOf, stored, nodes, index) && Saved(index, saved) && ListsKnownKeys(contents, stored, keyOf)
    ensures Openable(keyOf, contents, stored, saved)
  {
    LoadedIsWellTagged(index, saved);
    forall i | 0 <= i < |saved| ensures keyOf(saved[i].digest) == FromOCI(saved[i]) {
      var q :| WrittenAs(index, q, saved[i]);
    }
  }

  /** Blobs, indexed nodes and references fit together: indexed manifests are stored, and a digest has one key everywhere. */
  ghost predicate Agree(keyOf: string -> Key, storage: set<Key>, nodes: set<Key>, index: References) {
    && WellTagged(index)
    && (forall k :: k in nodes && IsManifest(k.mediaType) ==> k in storage)
    && (forall k :: k in storage ==> keyOf(k.digest) == k)
    && (forall k :: k in nodes ==> keyOf(k.digest) == k)
    && (forall r :: r in index ==> keyOf(index[r].digest) == FromOCI(index[r]))
  }

  lemma AgreeDelete(keyOf: string -> Key, storage: set<Key>, nodes: set<Key>, index: References, k: Key)
    requires Agree(keyOf, storage, nodes, index)
    ensures Agree(keyOf, storage - {k}, nodes - {k}, Restrict(index, {k}))
  {
  }

  lemma AgreePush(keyOf: string -> Key, storage: set<Key>, nodes: set<Key>, index: References, k: Key)
    requires Agree(keyOf, storage, nodes, index) && keyOf(k.digest) == k
    ensures Agree(keyOf, storage + {k}, nodes + {k}, index)
  {
  }

  lemma AgreeTag(keyOf: string -> Key, storage: set<Key>, nodes: set<Key>, index: References, desc: Descriptor, reference: string)
    requires Agree(keyOf, storage, nodes, index) && keyOf(desc.digest) == FromOCI(desc)
    requires IsDigest(desc.digest) && reference != ""
    ensures Agree(keyOf, storage, nodes, index[desc.digest := desc][reference := desc]) <==> (IsDigest(reference) ==> reference == desc.digest)
  {
    var m := index[desc.digest := desc][reference := desc];
    if IsDigest(reference) && reference != desc.digest {
      assert m[reference] == desc;
    } else {
      forall r | r in m ensures keyOf(m[r].digest) == FromOCI(m[r]) {
        if r != reference && r != desc.digest {
          assert m[r] == index[r];
        }
      }
      TagKeepsWellTagged(index, desc, reference);
    }
  }

  lemma AgreeUntag(keyOf: string -> Key, storage: set<Key>, nodes: set<Key>, index: References, reference: string)
    requires Agree(keyOf, storage, nodes, index) && IsTag(index, reference)
    ensures Agree(keyOf, storage, nodes, index - {reference})
  {
    var m := index - {reference};
    forall r | r in m
      ensures IsDigest(m[r].digest) && (IsDigest(r) ==> r == m[r].digest) && m[r].digest in m && FromOCI(m[m[r].digest]) == FromOCI(m[r])
    {
      assert m[r] == index[r];
      assert !IsDigest(reference);
    }
  }

  lemma TagKeepsWellTagged(index: References, desc: Descriptor, reference: string)
    requires WellTagged(index) && IsDigest(desc.digest) && reference != "" && (IsDigest(reference) ==> reference == desc.digest)
    requires forall r :: r in index && index[r].digest == desc.digest ==> FromOCI(index[r]) == FromOCI(desc)
    ensures WellTagged(index[desc.digest := desc][reference := desc])
  {
    var m := index[desc.digest := desc][reference := desc];
    forall r | r in m
      ensures IsDigest(m[r].digest) && (IsDigest(r) ==> r == m[r].digest) && m[r].digest in m && FromOCI(m[m[r].digest]) == FromOCI(m[r])
    {
      if r != reference && r != desc.digest {
        assert m[r] == index[r];
      }
    }
  }

  class Store {
    const contents: Contents
    const autoGC: bool
    const autoSaveIndex: bool
    /** One media type and one size per digest. */
    ghost const keyOf: string -> Key

    var storage: set<Key>
    var graph: G.Memory
    var tagResolver: Resolver.Memory
    /** The manifests of index.json. */
    var manifests: seq<Descriptor>

    ghost predicate Valid()
      reads this`storage, this`graph, this`tagResolver, graph, tagResolver
    {
      graph.Faithful(contents) && tagResolver.Valid() && Agree(keyOf, storage, graph.nodes.Keys, tagResolver.index)
    }

    /** A new store over an empty directory. */
    constructor (contents: Contents, autoGC: bool, autoSaveIndex: bool, ghost keyOf: string -> Key)
      ensures Valid() && IndexSaved() && fresh(graph) && fresh(tagResolver)
      ensures this.contents == contents && this.autoGC == autoGC && this.autoSaveIndex == autoSaveIndex && this.keyOf == keyOf
      ensures storage == {} && graph.nodes == map[] && tagResolver.index == map[]
    {
      this.contents, this.autoGC, this.autoSaveIndex, this.keyOf := contents, autoGC, autoSaveIndex, keyOf;
      storage, manifests := {}, [];
      graph := new G.Memory();
      tagResolver := new Resolver.Memory();
    }

    /** index.json stands for the references the resolver holds. */
    ghost predicate IndexSaved()
      reads this`manifests, this`tagResolver, tagResolver
    {
      Saved(tagResolver.index, manifests)
    }

    /** delete: removes one node from resolver, graph and storage, and returns the nodes it leaves without predecessors. */
    method DeleteOne(target: Descriptor) returns (found: bool, danglings: seq<Descriptor>)
      requires Valid() && keyOf(target.digest) == FromOCI(target)
      modifies this`storage, this`manifests, graph, tagResolver
      ensures Valid() && (autoSaveIndex && old(IndexSaved()) ==> IndexSaved())
      ensures found <==> FromOCI(target) in old(storage)
      ensures storage == old(storage) - {FromOCI(target)}
      ensures graph.nodes.Keys == old(graph.nodes.Keys) - {FromOCI(target)}
      ensures tagResolver.index == Restrict(old(tagResolver.index), {FromOCI(target)})
      ensures forall d :: d != target.digest ==> TagsOf(tagResolver.tags, d) == TagsOf(old(tagResolver.tags), d)
      ensures forall x :: x in Keys(danglings) <==> found && LastLister(contents, old(graph.nodes.Keys), FromOCI(target), x)
      ensures NoDuplicates(Keys(danglings))
    {
      var key := FromOCI(target);
      AgreeDelete(keyOf, storage, graph.nodes.Keys, tagResolver.index, key);
      var untagged := UntagAll(key);
      var orphans := RemoveNode(target);
      if untagged {
        AutoSave();
      }
      found := key in storage;
      storage := storage - {key};
      danglings := if found then orphans else [];
    }

    /** graph.Remove, in terms of the contents. */
    method RemoveNode(target: Descriptor) returns (orphans: seq<Descriptor>)
      requires graph.Faithful(contents)
      modifies graph
      ensures graph.Faithful(contents) && graph.nodes == old(graph.nodes) - {FromOCI(target)}
      ensures forall x :: x in Keys(orphans) <==> LastLister(contents, old(graph.nodes.Keys), FromOCI(target), x)
      ensures NoDuplicates(Keys(orphans))
    {
      ghost var before := graph.successors;
      orphans := graph.Remove(target);
      assert forall n, x :: Linked(graph.successors, n, x) <==> n in graph.nodes && x in SuccessorKeys(contents, n);
      assert forall n, x :: Linked(before, n, x) <==> n in old(graph.nodes) && x in SuccessorKeys(contents, n);
    }

    /** Untags every reference to the key, whatever the order in which the references come. */
    method UntagAll(key: Key) returns (untagged: bool)
      requires tagResolver.Valid()
      requires forall r :: r in tagResolver.index && FromOCI(tagResolver.index[r]) == key ==> tagResolver.index[r].digest == key.digest
      modifies tagResolver
      ensures tagResolver.Valid() && tagResolver.index == Restrict(old(tagResolver.index), {key})
      ensures forall d :: d != key.digest ==> TagsOf(tagResolver.tags, d) == TagsOf(old(tagResolver.tags), d)
      ensures !untagged ==> tagResolver.index == old(tagResolver.index)
    {
      var resolvers := tagResolver.index;
      untagged := false;
      var left := resolvers.Keys;
      while left != {}
        invariant tagResolver.Valid() && left <= resolvers.Keys
        invariant forall r :: r in tagResolver.index <==> r in resolvers && (r in left || FromOCI(resolvers[r]) != key)
        invariant forall r :: r in tagResolver.index ==> tagResolver.index[r] == resolvers[r]
        invariant forall d :: d != key.digest ==> TagsOf(tagResolver.tags, d) == TagsOf(old(tagResolver.tags), d)
        invariant !untagged ==> tagResolver.index == resolvers
        decreases left
      {
        var reference :| reference in left;
        if FromOCI(resolvers[reference]) == key {
          tagResolver.Untag(reference);
          untagged := true;
        }
        left := left - {reference};
      }
      assert tagResolver.index == Restrict(resolvers, {key});
    }

    /** The predecessors whose subject is the given key; fails if one that may have a subject cannot be fetched. */
    method WithThisSubject(predecessors: seq<Descriptor>, key: Key, artifactType: string) returns (ok: bool, found: seq<Descriptor>)
      requires IsManifest(key.mediaType)
      ensures (forall y :: y in Keys(predecessors) && IsManifest(y.mediaType) ==> y in storage) ==> ok
      ensures ok ==> forall y :: y in Keys(found) <==> y in Keys(predecessors) && Selected(key, artifactType, y)
      ensures ok ==> forall i :: 0 <= i < |found| ==> found[i] == AsReferrer(contents, found[i])
      ensures ok && NoDuplicates(Keys(predecessors)) ==> NoDuplicates(Keys(found))
    {
      found := [];
      for i := 0 to |predecessors|
        invariant forall y :: y in Keys(found) <==> y in Keys(predecessors)[..i] && Selected(key, artifactType, y)
        invariant forall j :: 0 <= j < |found| ==> found[j] == AsReferrer(contents, found[j])
        invariant NoDuplicates(Keys(predecessors)) ==> NoDuplicates(Keys(found))
      {
        var node := AsReferrer(contents, predecessors[i]);
        var nodeKey := FromOCI(node);
        assert nodeKey == Keys(predecessors)[i];
        assert Keys(predecessors)[..i + 1] == Keys(predecessors)[..i] + [nodeKey];
        if CanHaveSubject(nodeKey.mediaType) {
          if nodeKey !in storage {
            return false, [];
          }
          var subject := contents(nodeKey).subject;
          if subject.Some? && FromOCI(subject.value) == key && (artifactType == "" || artifactType == node.artifactType) {
            assert Keys(found + [node]) == Keys(found) + [nodeKey];
            if NoDuplicates(Keys(predecessors)) {
              NoDuplicatesConcat(Keys(found), [nodeKey]);
            }
            found := found + [node];
          }
        }
      }
      assert Keys(predecessors)[..|predecessors|] == Keys(predecessors);
      ok := true;
    }

    /** y is a referrer of the key, of the artifact type if one is asked for. */
    ghost predicate Selected(key: Key, artifactType: string, y: Key) {
      IsReferrer(contents, y, key) && (artifactType == "" || ArtifactType(contents, y) == artifactType)
    }

    /** registry.Referrers over the predecessor graph; only manifests have referrers. */
    method Referrers(desc: Descriptor, artifactType: string) returns (ok: bool, found: seq<Descriptor>)
      requires graph.Faithful(contents)
      ensures !IsManifest(desc.mediaType) ==> !ok
      ensures IsManifest(desc.mediaType) && (forall k :: k in graph.nodes && IsManifest(k.mediaType) ==> k in storage) ==> ok
      ensures ok ==> forall y :: y in Keys(found) <==> y in graph.nodes && Selected(FromOCI(desc), artifactType, y)
      ensures ok ==> NoDuplicates(Keys(found)) && forall i :: 0 <= i < |found| ==> found[i] == AsReferrer(contents, found[i])
      ensures ok ==> forall i :: 0 <= i < |found| ==> RefersTo(contents, found[i], FromOCI(desc)) && DescribedAs(found[i], contents(FromOCI(found[i])))
      ensures ok && artifactType != "" ==> forall i :: 0 <= i < |found| ==> found[i].artifactType == artifactType
    {
      if !IsManifest(desc.mediaType) {
        return false, [];
      }
      var key := FromOCI(desc);
      var predecessors := graph.Predecessors(desc);
      assert forall y :: Linked(graph.successors, y, key) ==> y in graph.nodes;
      ok, found := WithThisSubject(predecessors, key, artifactType);
      forall y | y in graph.nodes && IsReferrer(contents, y, key) ensures y in Keys(predecessors) {
        ReferrerLists(contents, y, key);
        assert Linked(graph.successors, y, key);
      }
      hide RefersTo, DescribedAs, AsReferrer, IsReferrer, ArtifactType;
      forall i | ok && 0 <= i < |found|
        ensures RefersTo(contents, found[i], key) && DescribedAs(found[i], contents(FromOCI(found[i])))
        ensures artifactType != "" ==> found[i].artifactType == artifactType
      {
        assert Keys(found)[i] in Keys(found);
        ListedAsReferrer(contents, found[i], key);
      }
    }

    /** The danglings that isTagged does not protect. */
    method Untagged(danglings: seq<Descriptor>) returns (kept: seq<Descriptor>)
      ensures forall x :: x in Keys(kept) <==> x in Keys(danglings) && !IsTagged(tagResolver.tags, x)
      ensures NoDuplicates(Keys(danglings)) ==> NoDuplicates(Keys(kept))
    {
      kept := [];
      for i := 0 to |danglings|
        invariant forall x :: x in Keys(kept) <==> x in Keys(danglings)[..i] && !IsTagged(tagResolver.tags, x)
        invariant NoDuplicates(Keys(danglings)) ==> NoDuplicates(Keys(kept))
      {
        var key := FromOCI(danglings[i]);
        assert key == Keys(danglings)[i];
        assert Keys(danglings)[..i + 1] == Keys(danglings)[..i] + [key];
        if !IsTagged(tagResolver.tags, key) {
          assert Keys(kept + [danglings[i]]) == Keys(kept) + [key];
          if NoDuplicates(Keys(danglings)) {
            NoDuplicatesConcat(Keys(kept), [key]);
          }
          kept := kept + [danglings[i]];
        }
      }
      assert Keys(danglings)[..|danglings|] == Keys(danglings);
    }

    /** One turn of Delete: takes the head and returns what has to be queued, first the referrers and then the orphans. */
    method DeleteHead(head: Descriptor) returns (ok: bool, added: seq<Descriptor>, ghost refs: seq<Key>, ghost orphans: seq<Key>)
      requires Valid() && keyOf(head.digest) == FromOCI(head)
      modifies this`storage, this`manifests, graph, tagResolver
      ensures Valid() && (autoSaveIndex && old(IndexSaved()) ==> IndexSaved())
      ensures ok <==> FromOCI(head) in old(storage)
      ensures storage == old(storage) - {FromOCI(head)}
      ensures graph.nodes.Keys == old(graph.nodes.Keys) - {FromOCI(head)}
      ensures tagResolver.index == Restrict(old(tagResolver.index), {FromOCI(head)})
      ensures forall d :: d != head.digest ==> TagsOf(tagResolver.tags, d) == TagsOf(old(tagResolver.tags), d)
      ensures ok && !autoGC ==> added == []
      ensures ok && autoGC ==> QueuedFor(contents, old(graph.nodes.Keys), tagResolver.tags, FromOCI(head), added, refs, orphans)
    {
      hide Agree, Saved, IsTagged, LastLister, Restrict, IsReferrer;
      added := [];
      if autoGC {
        added := ReferrersToQueue(head);
      }
      refs, orphans := Keys(added), [];
      var danglings;
      ok, danglings := DeleteOne(head);
      if ok && autoGC {
        var kept := Untagged(danglings);
        orphans := Keys(kept);
        assert Keys(added + kept) == refs + orphans;
        added := added + kept;
      }
    }

    method ReferrersToQueue(head: Descriptor) returns (found: seq<Descriptor>)
      requires Valid()
      ensures NoDuplicates(Keys(found)) && forall x :: x in Keys(found) <==> x in graph.nodes && IsReferrer(contents, x, FromOCI(head))
    {
      found := [];
      if IsManifest(head.mediaType) {
        var ok;
        ok, found := Referrers(head, "");
        assert ok;
      }
    }

    /** What deleting the target starts from. */
    ghost function LayoutFor(target: Key): Layout
      reads this`storage, this`graph, this`tagResolver, graph, tagResolver
    {
      Layout(contents, graph.nodes.Keys, storage, tagResolver.tags, target)
    }

    /** The store after the keys in `gone` were deleted from a store with the given layout and references. */
    ghost predicate Without(l: Layout, index: References, gone: set<Key>)
      reads this`storage, this`graph, this`tagResolver, graph, tagResolver
    {
      l.contents == contents && Left(keyOf, l, index, gone, storage, graph.nodes.Keys, tagResolver.index, tagResolver.tags)
    }

    ghost predicate KnownKeys(queue: seq<Descriptor>) {
      forall i :: 0 <= i < |queue| ==> keyOf(queue[i].digest) == FromOCI(queue[i])
    }

    /** After n turns of a delete. */
    ghost predicate Along(l: Layout, n: nat, gone: set<Key>, queue: seq<Descriptor>) {
      && l.contents == contents
      && (autoGC ==> Cascade(contents, l.nodes, l.tags, l.target, gone, queue))
      && (autoGC && Acyclic(Lists(contents)) ==> Reachable(l, n, Stage(gone, Keys(queue))))
    }

    lemma AlongStarts(l: Layout, target: Descriptor)
      requires l.contents == contents && l.target == FromOCI(target)
      ensures Along(l, 0, {}, [target])
    {
      CascadeStart(contents, l.nodes, l.tags, target);
      assert Keys([target]) == [l.target];
    }

    /** What a turn queues takes the delete one turn further. */
    lemma AlongGoes(l: Layout, n: nat, gone: set<Key>, now: TagSets, head: Descriptor, rest: seq<Descriptor>, added: seq<Descriptor>,
                    refs: seq<Key>, orphans: seq<Key>)
      requires autoGC && Along(l, n, gone, [head] + rest) && FromOCI(head) in l.storage && FromOCI(head) !in gone
      requires forall k :: k in l.nodes && k !in gone && k != FromOCI(head) ==> TagsOf(now, k.digest) == TagsOf(l.tags, k.digest)
      requires QueuedFor(l.contents, l.nodes - gone, now, FromOCI(head), added, refs, orphans)
      requires forall k :: k in l.nodes ==> keyOf(k.digest) == k
      ensures Along(l, n + 1, gone + {FromOCI(head)}, rest + added) && KnownKeys(added)
    {
      hide IsReferrer, LastLister, IsTagged, TagsOf, Turn, Acyclic, Cascade, Reachable, QueuedFor;
      QueuedKeys(l.contents, l.nodes - gone, now, FromOCI(head), added, refs, orphans);
      AddedKnown(added, l.nodes);
      CascadeTurn(contents, l.nodes, l.tags, now, l.target, gone, head, rest, added);
      LoopTurn(l, gone, now, head, rest, added, refs, orphans);
      if Acyclic(Lists(contents)) {
        TurnReaches(l, n, Stage(gone, Keys([head] + rest)), Stage(gone + {FromOCI(head)}, Keys(rest + added)));
      }
    }

    /** A delete that started from this layout and these references is n turns on. */
    ghost predicate Deleting(l: Layout, index: References, n: nat, gone: set<Key>, queue: seq<Descriptor>)
      reads this`storage, this`graph, this`tagResolver, graph, tagResolver
    {
      Valid() && Without(l, index, gone) && KnownKeys(queue) && Along(l, n, gone, queue)
    }

    method DeleteTurn(queue: seq<Descriptor>, ghost l: Layout, ghost index: References, ghost n: nat, ghost gone: set<Key>)
      returns (ok: bool, queue': seq<Descriptor>)
      requires queue != [] && Deleting(l, index, n, gone, queue)
      modifies this`storage, this`manifests, graph, tagResolver
      ensures Valid() && (autoSaveIndex && old(IndexSaved()) ==> IndexSaved())
      ensures ok <==> FromOCI(queue[0]) in old(storage)
      ensures storage == old(storage) - {FromOCI(queue[0])}
      ensures ok ==> Deleting(l, index, n + 1, gone + {FromOCI(queue[0])}, queue')
      ensures ok && !autoGC ==> queue' == queue[1..]
    {
      var head := queue[0];
      var rest := queue[1..];
      assert queue == [head] + rest;
      hide Agree, Saved, Restrict, TagsOf, Along, QueuedFor, Left, KnownKeys;
      ghost var stored, nodes, now, tags := storage, graph.nodes.Keys, tagResolver.index, tagResolver.tags;
      HeadKnown(queue);
      var added;
      ghost var refs, orphans;
      ok, added, refs, orphans := DeleteHead(head);
      queue' := rest + added;
      if ok {
        AfterTurn(l, index, n, gone, head, rest, added, refs, orphans, stored, nodes, now, tags, tagResolver.tags);
      }
    }

    lemma HeadKnown(queue: seq<Descriptor>)
      requires KnownKeys(queue) && queue != []
      ensures keyOf(queue[0].digest) == FromOCI(queue[0])
    {
    }

    /** What a turn leaves and what it queues, in terms of what was there before it. */
    lemma AfterTurn(l: Layout, index: References, n: nat, gone: set<Key>, head: Descriptor, rest: seq<Descriptor>, added: seq<Descriptor>,
                    refs: seq<Key>, orphans: seq<Key>, stored: set<Key>, nodes: set<Key>, now: References, tags: TagSets, tags': TagSets)
      requires Left(keyOf, l, index, gone, stored, nodes, now, tags) && FromOCI(head) in stored && l.contents == contents
      requires KnownKeys([head] + rest) && Along(l, n, gone, [head] + rest)
      requires forall d :: d != head.digest ==> TagsOf(tags', d) == TagsOf(tags, d)
      requires if autoGC then QueuedFor(contents, nodes, tags', FromOCI(head), added, refs, orphans) else added == []
      ensures Left(keyOf, l, index, gone + {FromOCI(head)}, stored - {FromOCI(head)}, nodes - {FromOCI(head)}, Restrict(now, {FromOCI(head)}), tags')
      ensures KnownKeys(rest + added) && Along(l, n + 1, gone + {FromOCI(head)}, rest + added)
    {
      var queue := [head] + rest;
      assert queue[0] == head && rest == queue[1..];
      hide Restrict, TagsOf, Along, QueuedFor, Left;
      OneMoreGone(keyOf, l, index, gone, FromOCI(head), stored, nodes, now, tags, tags');
      if autoGC {
        AlongGoes(l, n, gone, tags', head, rest, added, refs, orphans);
      } else {
        AlongPlain(l, n, gone, queue, gone + {FromOCI(head)}, rest + added);
      }
    }

    lemma AlongPlain(l: Layout, n: nat, gone: set<Key>, queue: seq<Descriptor>, gone': set<Key>, queue': seq<Descriptor>)
      requires !autoGC && Along(l, n, gone, queue)
      ensures Along(l, n + 1, gone', queue')
    {
    }

    lemma AddedKnown(added: seq<Descriptor>, nodes: set<Key>)
      requires forall k :: k in nodes ==> keyOf(k.digest) == k
      requires forall x :: x in Keys(added) ==> x in nodes
      ensures KnownKeys(added)
    {
      forall i | 0 <= i < |added| ensures keyOf(added[i].digest) == FromOCI(added[i]) {
        assert Keys(added)[i] in nodes;
      }
    }

    lemma DeletingStarts(l: Layout, target: Descriptor)
      requires Valid() && keyOf(target.digest) == FromOCI(target) && l == LayoutFor(FromOCI(target))
      ensures Deleting(l, tagResolver.index, 0, {}, [target])
    {
      AlongStarts(l, target);
      assert Restrict(tagResolver.index, {}) == tagResolver.index;
    }

    /** The loop of Delete, as a run over the queue. */
    method DeleteAll(target: Descriptor, ghost l: Layout, ghost index: References)
      returns (ok: bool, ghost gone: set<Key>, ghost n: nat, queue: seq<Descriptor>)
      requires Valid() && keyOf(target.digest) == FromOCI(target) && l == LayoutFor(FromOCI(target)) && index == tagResolver.index
      modifies this`storage, this`manifests, graph, tagResolver
      ensures Valid() && (autoSaveIndex && old(IndexSaved()) ==> IndexSaved())
      ensures gone <= l.storage && storage == l.storage - gone && (ok ==> Without(l, index, gone))
      ensures if ok then queue == [] else queue != [] && FromOCI(queue[0]) !in l.storage - gone
      ensures Along(l, n, gone, queue)
      ensures !autoGC ==> (ok <==> l.target in l.storage) && (ok ==> gone == {l.target})
    {
      queue, gone, n := [target], {}, 0;
      DeletingStarts(l, target);
      hide Agree, Saved, Along, Without, KnownKeys;
      while queue != []
        invariant Deleting(l, index, n, gone, queue) && (autoSaveIndex && old(IndexSaved()) ==> IndexSaved())
        invariant gone <= l.storage && storage == l.storage - gone
        invariant !autoGC ==> (gone == {} && queue == [target]) || (gone == {l.target} && queue == [])
        decreases storage
      {
        var proceeded, queue' := DeleteTurn(queue, l, index, n, gone);
        if !proceeded {
          return false, gone, n, queue;
        }
        gone := gone + {FromOCI(queue[0])};
        n, queue := n + 1, queue';
      }
      ok := true;
    }

    lemma AlongEnds(l: Layout, n: nat, gone: set<Key>, queue: seq<Descriptor>)
      requires autoGC && Along(l, n, gone, queue)
      ensures forall x :: x in gone ==> Justified(l.contents, l.nodes, l.tags, l.target, gone, x)
      ensures queue == [] && Acyclic(Lists(contents)) ==> IsLastRound(l, gone)
      ensures queue != [] && FromOCI(queue[0]) !in l.storage - gone && Acyclic(Lists(contents)) ==> MayFail(l)
    {
      hide Justified, Reachable, Acyclic, Lists, MayFail, IsLastRound;
      if Acyclic(Lists(contents)) {
        if queue == [] {
          EndsInLastRound(l, n, Stage(gone, Keys(queue)));
        } else if FromOCI(queue[0]) !in l.storage - gone {
          FailsNow(l, n, Stage(gone, Keys(queue)));
        }
      }
    }

    /**
     Deletes the target and, with autoGC, everything that goes with it.  Fails when something queued is not stored,
     which also happens when a node was queued twice.
     */
    method Delete(target: Descriptor) returns (ok: bool, ghost gone: set<Key>)
      requires Valid() && keyOf(target.digest) == FromOCI(target)
      modifies this`storage, this`manifests, graph, tagResolver
      ensures Valid() && (autoSaveIndex && old(IndexSaved()) ==> IndexSaved())
      ensures gone <= old(storage) && storage == old(storage) - gone
      ensures autoGC ==> forall x :: x in gone ==>
                Justified(contents, old(graph.nodes.Keys), old(tagResolver.tags), FromOCI(target), gone, x)
      ensures ok ==> FromOCI(target) in gone && graph.nodes.Keys == old(graph.nodes.Keys) - gone
      ensures ok ==> tagResolver.index == Restrict(old(tagResolver.index), gone)
      ensures !autoGC ==> (ok <==> FromOCI(target) in old(storage)) && (ok ==> gone == {FromOCI(target)})
      ensures ok && autoGC ==> forall x, y :: x in gone && y in old(graph.nodes) && IsReferrer(contents, y, x) ==> y in gone
      ensures ok && autoGC ==> forall x :: x in graph.nodes && Orphaned(contents, old(graph.nodes.Keys), gone, x) ==>
                IsTagged(old(tagResolver.tags), x)
      ensures ok && autoGC ==> forall x :: x in old(graph.nodes) && IsTagged(old(tagResolver.tags), x) ==>
                (x in gone <==> x == FromOCI(target) || ByReferrer(old(LayoutFor(FromOCI(target))), gone, x))
      ensures autoGC && Acyclic(Lists(contents)) && ok ==> IsLastRound(old(LayoutFor(FromOCI(target))), gone)
      ensures autoGC && Acyclic(Lists(contents)) && !ok ==> MayFail(old(LayoutFor(FromOCI(target))))
      ensures autoGC && Acyclic(Lists(contents)) && AllStored(old(LayoutFor(FromOCI(target)))) && NoConflict(old(LayoutFor(FromOCI(target)))) ==> ok
    {
      ghost var l := LayoutFor(FromOCI(target));
      if Acyclic(Lists(contents)) {
        SucceedsIff(l);
      }
      hide Agree, Saved, Restrict, IsTagged, Orphaned, IsReferrer, Justified, Acyclic, Lists, MayFail, AllStored, NoConflict, IsLastRound;
      ghost var n;
      var queue;
      ok, gone, n, queue := DeleteAll(target, l, tagResolver.index);
      if autoGC {
        AlongEnds(l, n, gone, queue);
      }
      if ok && autoGC {
        CascadeEnd(contents, l.nodes, l.tags, l.target, gone);
        TaggedGoOnlyAsReferrers(l, gone);
      }
    }

    method TagWithDigest(desc: Descriptor, reference: string)
      requires tagResolver.Valid()
      modifies tagResolver
      ensures tagResolver.Valid() && tagResolver.index == old(tagResolver.index)[desc.digest := desc][reference := desc]
    {
      if reference != desc.digest {
        tagResolver.Tag(desc, desc.digest);
      }
      tagResolver.Tag(desc, reference);
    }

    method AutoSave()
      modifies this`manifests
      ensures if autoSaveIndex then IndexSaved() else manifests == old(manifests)
    {
      if autoSaveIndex {
        manifests := SaveIndex(tagResolver.index);
      }
    }

    /** tag: also tags the descriptor by its digest. */
    method TagBoth(desc: Descriptor, reference: string)
      requires Valid() && keyOf(desc.digest) == FromOCI(desc) && IsDigest(desc.digest)
      requires reference != ""
      modifies this`manifests, tagResolver
      ensures Valid() <==> (IsDigest(reference) ==> reference == desc.digest)
      ensures tagResolver.Valid() && (autoSaveIndex ==> IndexSaved())
      ensures tagResolver.index == old(tagResolver.index)[desc.digest := desc][reference := desc]
    {
      AgreeTag(keyOf, storage, graph.nodes.Keys, tagResolver.index, desc, reference);
      hide Saved, Agree, WellTagged, IsDigest;
      TagWithDigest(desc, reference);
      AutoSave();
    }

    /** Stores a blob and indexes it. */
    method Admit(expected: Descriptor)
      requires Valid() && keyOf(expected.digest) == FromOCI(expected)
      modifies this`storage, graph
      ensures Valid() && storage == old(storage) + {FromOCI(expected)}
      ensures graph.nodes == old(graph.nodes)[FromOCI(expected) := expected]
    {
      var key := FromOCI(expected);
      AgreePush(keyOf, storage, graph.nodes.Keys, tagResolver.index, key);
      storage := storage + {key};
      graph.IndexStored(contents, expected);
      assert graph.nodes.Keys == old(graph.nodes.Keys) + {key};
    }

    /** Stores a blob, indexes it, and tags manifests by their digest; fails if the blob is stored already. */
    method Push(expected: Descriptor) returns (ok: bool)
      requires Valid() && keyOf(expected.digest) == FromOCI(expected) && IsDigest(expected.digest)
      modifies this`storage, this`manifests, graph, tagResolver
      ensures Valid() && (autoSaveIndex && old(IndexSaved()) ==> IndexSaved())
      ensures ok <==> FromOCI(expected) !in old(storage)
      ensures storage == old(storage) + {FromOCI(expected)}
      ensures graph.nodes == if ok then old(graph.nodes)[FromOCI(expected) := expected] else old(graph.nodes)
      ensures tagResolver.index == if ok && IsManifest(expected.mediaType) then old(tagResolver.index)[expected.digest := expected] else old(tagResolver.index)
    {
      hide Saved, Agree;
      ok := FromOCI(expected) !in storage;
      if ok {
        Admit(expected);
        if IsManifest(expected.mediaType) {
          TagBoth(expected, expected.digest);
        }
      }
    }

    /**
     Fails on an empty reference and on content that is not stored.  A reference that is the digest of other content is
     accepted, and makes the store inconsistent.
     */
    method Tag(desc: Descriptor, reference: string) returns (ok: bool)
      requires Valid() && keyOf(desc.digest) == FromOCI(desc) && IsDigest(desc.digest)
      modifies this`manifests, tagResolver
      ensures autoSaveIndex && old(IndexSaved()) ==> IndexSaved()
      ensures Valid() <==> (ok && IsDigest(reference) ==> reference == desc.digest)
      ensures ok <==> reference != "" && FromOCI(desc) in storage
      ensures tagResolver.index == if ok then old(tagResolver.index)[desc.digest := desc][reference := desc] else old(tagResolver.index)
    {
      ok := reference != "" && FromOCI(desc) in storage;
      if ok {
        TagBoth(desc, reference);
      }
    }

    method RemoveTag(reference: string)
      requires Valid() && IsTag(tagResolver.index, reference)
      modifies tagResolver
      ensures Valid() && tagResolver.index == old(tagResolver.index) - {reference}
    {
      AgreeUntag(keyOf, storage, graph.nodes.Keys, tagResolver.index, reference);
      hide Agree;
      tagResolver.Untag(reference);
    }

    /** Fails on an unknown reference and on a digest. */
    method Untag(reference: string) returns (ok: bool)
      requires Valid()
      modifies this`manifests, tagResolver
      ensures Valid() && (autoSaveIndex && old(IndexSaved()) ==> IndexSaved())
      ensures ok <==> IsTag(old(tagResolver.index), reference)
      ensures tagResolver.index == if ok then old(tagResolver.index) - {reference} else old(tagResolver.index)
    {
      hide Saved;
      ok := reference != "" && reference in tagResolver.index && reference != tagResolver.index[reference].digest;
      if ok {
        RemoveTag(reference);
        AutoSave();
      }
    }

    /** One turn of loadIndex. */
    method LoadManifest(desc: Descriptor, ghost roots: set<Key>)
      requires tagResolver.Valid() && Indexes(graph, roots)
      modifies graph, tagResolver
      ensures tagResolver.Valid() && tagResolver.index == LoadOne(old(tagResolver.index), desc)
      ensures Indexes(graph, roots + {FromOCI(desc)})
    {
      hide InGraph;
      tagResolver.Tag(DeleteRefName(desc), desc.digest);
      if RefName(desc) != "" {
        tagResolver.Tag(desc, RefName(desc));
      }
      IndexBelow(graph, desc, roots);
    }

    /** Opening a store over existing blobs and an existing index.json: loadIndex restores resolver and graph. */
    constructor Open(contents: Contents, autoGC: bool, autoSaveIndex: bool, ghost keyOf: string -> Key, stored: set<Key>, saved: seq<Descriptor>)
      ensures this.contents == contents && this.keyOf == keyOf && storage == stored && manifests == saved
      ensures this.autoGC == autoGC && this.autoSaveIndex == autoSaveIndex
      ensures tagResolver.Valid() && tagResolver.index == Load(saved)
      ensures Indexes(graph, ToSet(Keys(saved)))
      ensures fresh(graph) && fresh(tagResolver)
      ensures Openable(keyOf, contents, stored, saved) ==> Valid()
    {
      this.contents, this.autoGC, this.autoSaveIndex, this.keyOf := contents, autoGC, autoSaveIndex, keyOf;
      storage, manifests := stored, saved;
      graph := new G.Memory();
      tagResolver := new Resolver.Memory();
      new;
      for i := 0 to |saved|
        invariant fresh(graph) && fresh(tagResolver) && storage == stored && manifests == saved
        invariant tagResolver.Valid() && tagResolver.index == Load(saved[..i])
        invariant Indexes(graph, ToSet(Keys(saved)[..i]))
      {
        hide InGraph, LoadOne, Load, ToSet;
        LoadNext(saved, i);
        LoadManifest(saved[i], ToSet(Keys(saved)[..i]));
      }
      assert saved[..|saved|] == saved && Keys(saved)[..|saved|] == Keys(saved);
      if Openable(keyOf, contents, stored, saved) {
        OpenedAgrees(keyOf, contents, stored, saved, graph.nodes.Keys);
      }
    }

    /** The graph holds exactly what is below the roots. */
    ghost predicate Indexes(g: G.Memory, roots: set<Key>)
      reads this`storage, g
    {
      g.Faithful(contents) && forall k :: k in g.nodes <==> InGraph(contents, storage, roots, k)
    }

    /** The resolver holds known references only, all tags outside `left`, and of the untagged digests in `done` those it has to. */
    ghost predicate Restores(resolver: Resolver.Memory, refMap: References, left: set<string>, done: set<string>)
      reads resolver
    {
      && resolver.Valid() && Rebuilt(refMap, resolver.index) && TagsKept(refMap, resolver.index, left)
      && UntaggedKept(contents, refMap, resolver.index, done)
    }

    method IndexBelow(g: G.Memory, desc: Descriptor, ghost roots: set<Key>)
      requires Indexes(g, roots)
      modifies g
      ensures Indexes(g, roots + {FromOCI(desc)})
    {
      InGraphAdd(contents, storage, roots, FromOCI(desc));
      g.IndexAll(contents, storage, Plain(FromOCI(desc)));
    }

    method RestoreTag(resolver: Resolver.Memory, ghost refMap: References, ghost left: set<string>, desc: Descriptor, reference: string)
      requires WellTagged(refMap) && IsTag(refMap, reference) && refMap[reference] == desc
      requires Restores(resolver, refMap, left, {})
      modifies resolver
      ensures Restores(resolver, refMap, left - {reference}, {})
    {
      KeepTag(refMap, resolver.index, left, reference);
      KeepTagUntagged(contents, refMap, resolver.index, {}, reference);
      resolver.Tag(DeleteRefName(desc), desc.digest);
      resolver.Tag(desc, reference);
    }

    method RestoreDigest(resolver: Resolver.Memory, ghost refMap: References, desc: Descriptor, ghost done: set<string>)
      requires WellTagged(refMap) && IsCandidate(refMap, desc.digest) && refMap[desc.digest] == desc
      requires Restores(resolver, refMap, {}, done) && Subject(contents, FromOCI(desc)).Some?
      modifies resolver
      ensures Restores(resolver, refMap, {}, done + {desc.digest})
    {
      KeepDigest(refMap, resolver.index, desc.digest);
      KeepDigestUntagged(contents, refMap, resolver.index, done, desc.digest);
      resolver.Tag(DeleteRefName(desc), desc.digest);
    }

    method KeepTagged(ghost refMap: References, resolver: Resolver.Memory, g: G.Memory, ghost left: set<string>, desc: Descriptor, reference: string)
      requires WellTagged(refMap) && IsTag(refMap, reference) && refMap[reference] == desc
      requires Restores(resolver, refMap, left, {}) && Indexes(g, KeysOutside(refMap, left))
      modifies resolver, g
      ensures Restores(resolver, refMap, left - {reference}, {}) && Indexes(g, KeysOutside(refMap, left) + {FromOCI(desc)})
    {
      hide InGraph, Rebuilt, TagsKept, KeysOutside;
      RestoreTag(resolver, refMap, left, desc, reference);
      IndexBelow(g, desc, KeysOutside(refMap, left));
    }

    lemma NothingRebuilt(refMap: References, resolver: Resolver.Memory, g: G.Memory)
      requires resolver.Valid() && resolver.index == map[] && g.Faithful(contents) && g.nodes == map[]
      ensures Restores(resolver, refMap, refMap.Keys, {}) && Indexes(g, KeysOutside(refMap, refMap.Keys))
    {
      NothingOutside(refMap);
    }

    lemma DigestNeedsNothing(refMap: References, resolver: Resolver.Memory, left: set<string>, reference: string)
      requires Restores(resolver, refMap, left, {}) && !IsTag(refMap, reference)
      ensures Restores(resolver, refMap, left - {reference}, {})
    {
    }

    /** The first loop of gcIndex: everything below the tagged manifests, in whatever order the tags come. */
    method RebuildTagged(refMap: References, resolver: Resolver.Memory, g: G.Memory) returns (tagged: set<string>)
      requires resolver.Valid() && resolver.index == map[] && g.Faithful(contents) && g.nodes == map[] && WellTagged(refMap)
      modifies resolver, g
      ensures Restores(resolver, refMap, {}, {}) && Indexes(g, TaggedKeys(refMap))
      ensures tagged == DigestsOutside(refMap, {})
    {
      hide Restores, Indexes, KeysOutside, DigestsOutside, WellTagged;
      tagged := {};
      var left := refMap.Keys;
      NothingOutside(refMap);
      NothingRebuilt(refMap, resolver, g);
      while left != {}
        invariant left <= refMap.Keys && Restores(resolver, refMap, left, {})
        invariant Indexes(g, KeysOutside(refMap, left))
        invariant tagged == DigestsOutside(refMap, left)
        decreases left
      {
        var reference :| reference in left;
        var desc := refMap[reference];
        OutsideStep(refMap, left, reference);
        if reference != desc.digest {
          KeepTagged(refMap, resolver, g, left, desc, reference);
          tagged := tagged + {desc.digest};
        } else {
          DigestNeedsNothing(refMap, resolver, left, reference);
        }
        left := left - {reference};
      }
    }

    /**
     The second loop of gcIndex, over the untagged manifests in the given order.  The source looks for an indexed
     subject in a loop that reads the same manifest each time; a subject that is not indexed makes it spin for ever.
     */
    method RebuildReferrers(refMap: References, order: seq<string>, tagged: set<string>, resolver: Resolver.Memory, g: G.Memory)
      returns (result: GcResult, ghost accepted: seq<Key>)
      requires WellTagged(refMap) && (forall r :: r in order ==> r in refMap) && tagged == DigestsOutside(refMap, {})
      requires Restores(resolver, refMap, {}, {}) && Indexes(g, TaggedKeys(refMap))
      modifies resolver, g
      ensures result == ResultOf(Accept(contents, storage, TaggedKeys(refMap), Candidates(refMap, order)))
      ensures result.Returned? ==> Accept(contents, storage, TaggedKeys(refMap), Candidates(refMap, order)) == Done(accepted)
      ensures result.Returned? ==> Restores(resolver, refMap, {}, set r | r in order) && Indexes(g, TaggedKeys(refMap) + ToSet(accepted))
    {
      ghost var roots := TaggedKeys(refMap);
      accepted := [];
      assert roots + ToSet(accepted) == roots;
      UpToEnds(contents, storage, refMap, order);
      hide Accept, AcceptUpTo, Looked, Candidates, JudgeNext, Restores, Indexes, TaggedKeys, WellTagged, DigestsOutside;
      for i := 0 to |order|
        invariant AcceptUpTo(contents, storage, refMap, order, i) == Done(accepted)
        invariant Restores(resolver, refMap, {}, Looked(order, i))
        invariant Indexes(g, roots + ToSet(accepted))
      {
        CandidateStep(contents, storage, refMap, order, i, accepted);
        LookedStep(order, i);
        result, accepted := RebuildNext(refMap, order[i], tagged, resolver, g, roots, accepted, Looked(order, i));
        if !result.Returned? {
          CandidatesEnd(contents, storage, refMap, order, i + 1);
          return;
        }
      }
      result := Returned;
    }

    method RebuildNext(refMap: References, reference: string, tagged: set<string>, resolver: Resolver.Memory, g: G.Memory,
                       ghost roots: set<Key>, ghost accepted: seq<Key>, ghost done: set<string>)
      returns (result: GcResult, ghost accepted': seq<Key>)
      requires WellTagged(refMap) && reference in refMap && tagged == DigestsOutside(refMap, {})
      requires Restores(resolver, refMap, {}, done) && Indexes(g, roots + ToSet(accepted))
      modifies resolver, g
      ensures result == ResultOf(JudgeNext(contents, storage, roots, refMap, accepted, reference))
      ensures result.Returned? ==> JudgeNext(contents, storage, roots, refMap, accepted, reference) == Done(accepted')
      ensures result.Returned? ==> Restores(resolver, refMap, {}, done + {reference}) && Indexes(g, roots + ToSet(accepted'))
    {
      var desc := refMap[reference];
      DigestsOutsideMeans(refMap, reference);
      if reference == desc.digest && desc.digest !in tagged {
        hide Judge, Rebuilt, TagsKept, InGraph, UntaggedKept;
        result, accepted' := RebuildReferrer(refMap, desc, resolver, g, roots, accepted, done);
      } else {
        SkipUntagged(contents, refMap, resolver.index, done, reference);
        result, accepted' := Returned, accepted;
      }
    }

    lemma NoSubjectNeedsNothing(refMap: References, resolver: Resolver.Memory, done: set<string>, digest: string)
      requires Restores(resolver, refMap, {}, done) && IsCandidate(refMap, digest) && Subject(contents, FromOCI(refMap[digest])).None?
      ensures Restores(resolver, refMap, {}, done + {digest})
    {
      SkipUntagged(contents, refMap, resolver.index, done, digest);
    }

    /** The inner loop of gcIndex for one untagged manifest. */
    method RebuildReferrer(ghost refMap: References, desc: Descriptor, resolver: Resolver.Memory, g: G.Memory,
                           ghost roots: set<Key>, ghost accepted: seq<Key>, ghost done: set<string>)
      returns (result: GcResult, ghost accepted': seq<Key>)
      requires WellTagged(refMap) && IsCandidate(refMap, desc.digest) && refMap[desc.digest] == desc
      requires Restores(resolver, refMap, {}, done) && Indexes(g, roots + ToSet(accepted))
      modifies resolver, g
      ensures result == ResultOf(Judge(contents, storage, roots, accepted, FromOCI(desc)))
      ensures result.Returned? ==> Judge(contents, storage, roots, accepted, FromOCI(desc)) == Done(accepted')
      ensures result.Returned? ==> Restores(resolver, refMap, {}, done + {desc.digest}) && Indexes(g, roots + ToSet(accepted'))
    {
      hide Restores, WellTagged;
      var key := FromOCI(desc);
      accepted' := accepted;
      if CanHaveSubject(key.mediaType) && key !in storage {
        return FetchFailed, accepted;
      }
      var subject := Subject(contents, key);
      if subject.None? {
        NoSubjectNeedsNothing(refMap, resolver, done, desc.digest);
        return Returned, accepted;
      }
      if FromOCI(subject.value) !in g.nodes {
        return NeverReturns, accepted;
      }
      hide InGraph, Rebuilt, TagsKept, WellTagged, UntaggedKept, IsCandidate, ToSet;
      RestoreDigest(resolver, refMap, desc, done);
      IndexBelow(g, desc, roots + ToSet(accepted));
      RootsGrow(roots, accepted, key);
      return Returned, accepted + [key];
    }

    lemma RootsKnown(order: seq<string>, index: References, accepted: seq<Key>)
      requires Agree(keyOf, storage, graph.nodes.Keys, index)
      requires Accept(contents, storage, TaggedKeys(index), Candidates(index, order)) == Done(accepted)
      ensures forall k :: k in TaggedKeys(index) + ToSet(accepted) ==> keyOf(k.digest) == k
    {
      AcceptedAmong(contents, storage, TaggedKeys(index), Candidates(index, order));
      CandidatesHold(index, order);
    }

    /** What is rebuilt from known references and known roots agrees with the storage. */
    lemma RebuiltAgrees(before: References, after: References, roots: set<Key>, nodes: set<Key>)
      requires Agree(keyOf, storage, graph.nodes.Keys, before) && Rebuilt(before, after) && ListsKnownKeys(contents, storage, keyOf)
      requires forall k :: k in roots ==> keyOf(k.digest) == k
      requires forall k :: k in nodes <==> InGraph(contents, storage, roots, k)
      ensures Agree(keyOf, storage, nodes, after)
    {
      RebuiltIsWellTagged(before, after);
      forall k | k in nodes ensures keyOf(k.digest) == k && Indexable(storage, k) {
        InGraphKnown(contents, storage, roots, keyOf, k);
      }
      forall r | r in after ensures keyOf(after[r].digest) == FromOCI(after[r]) {
        assert FromOCI(after[r]) == FromOCI(before[r]);
      }
    }

    /** Both loops of gcIndex, over a new resolver and a new graph. */
    method Rebuild(refMap: References, order: seq<string>, resolver: Resolver.Memory, g: G.Memory) returns (result: GcResult, ghost accepted: seq<Key>)
      requires resolver.Valid() && resolver.index == map[] && g.Faithful(contents) && g.nodes == map[]
      requires Agree(keyOf, storage, graph.nodes.Keys, refMap) && ListsKnownKeys(contents, storage, keyOf) && IsIteration(refMap, order)
      requires g != graph
      modifies resolver, g
      ensures result == ResultOf(Accept(contents, storage, TaggedKeys(refMap), Candidates(refMap, order)))
      ensures result.Returned? ==> Accept(contents, storage, TaggedKeys(refMap), Candidates(refMap, order)) == Done(accepted)
      ensures result.Returned? ==> Restores(resolver, refMap, {}, refMap.Keys) && Indexes(g, TaggedKeys(refMap) + ToSet(accepted))
      ensures result.Returned? ==> Agree(keyOf, storage, g.nodes.Keys, resolver.index)
    {
      forall r ensures r in order <==> r in refMap { IterationCovers(refMap, order, r); }
      assert (set r | r in order) == refMap.Keys;
      var tagged := RebuildTagged(refMap, resolver, g);
      result, accepted := RebuildReferrers(refMap, order, tagged, resolver, g);
      if result.Returned? {
        RootsKnown(order, refMap, accepted);
        RebuiltAgrees(refMap, resolver.index, TaggedKeys(refMap) + ToSet(accepted), g.nodes.Keys);
      }
    }

    /** gcIndex: replaces resolver and graph by what the tags and their referrers need; leaves both alone if it fails. */
    method GcIndex(order: seq<string>) returns (result: GcResult, ghost accepted: seq<Key>)
      requires Valid() && ListsKnownKeys(contents, storage, keyOf) && IsIteration(tagResolver.index, order)
      modifies this`graph, this`tagResolver
      ensures result == ResultOf(Accept(contents, storage, TaggedKeys(old(tagResolver.index)), Candidates(old(tagResolver.index), order)))
      ensures !result.Returned? ==> graph == old(graph) && tagResolver == old(tagResolver)
      ensures result.Returned? ==> fresh(graph) && fresh(tagResolver) && Valid()
      ensures result.Returned? ==> Restores(tagResolver, old(tagResolver.index), {}, old(tagResolver.index).Keys)
      ensures result.Returned? ==> Indexes(graph, TaggedKeys(old(tagResolver.index)) + ToSet(accepted))
      ensures result.Returned? ==>
                Accept(contents, storage, TaggedKeys(old(tagResolver.index)), Candidates(old(tagResolver.index), order)) == Done(accepted)
    {
      hide Agree, InGraph, Accept, Candidates, Rebuilt, TagsKept, IsIteration, ListsKnownKeys, TaggedKeys;
      var resolver := new Resolver.Memory();
      var g := new G.Memory();
      result, accepted := Rebuild(tagResolver.index, order, resolver, g);
      if result.Returned? {
        tagResolver := resolver;
        graph := g;
      }
    }

    /** The digests of the indexed nodes. */
    function DigestSet(): set<string>
      reads this`graph, graph
    {
      set k | k in graph.nodes :: k.digest
    }

    /** Removes the blobs of known algorithms whose digest is valid and not in the set, directory entry by directory entry. */
    method Sweep(reachable: set<string>)
      modifies this`storage
      ensures storage == set k | k in old(storage) && KeptBy(reachable, k)
    {
      var left := storage;
      while left != {}
        invariant left <= storage
        invariant storage == set k | k in old(storage) && (k in left || KeptBy(reachable, k))
        decreases left
      {
        var k :| k in left;
        KnownAlgorithms(k.digest, "", "");
        if IsKnownAlgorithm(k.digest) && IsDigest(k.digest) && k.digest !in reachable {
          storage := storage - {k};
        }
        left := left - {k};
      }
    }

    /** A digest has one key, so what is kept by digest is what is indexed. */
    lemma SweptIsSurvivors(stored: set<Key>, roots: set<Key>)
      requires Indexes(graph, roots) && storage == stored && Agree(keyOf, storage, graph.nodes.Keys, tagResolver.index)
      ensures (set k | k in stored && KeptBy(DigestSet(), k)) == Survivors(contents, stored, roots)
      ensures forall k :: k in stored && IsDigest(k.digest) ==> (k in Survivors(contents, stored, roots) <==> k in graph.nodes)
      ensures Agree(keyOf, Survivors(contents, stored, roots), graph.nodes.Keys, tagResolver.index)
    {
      hide IsDigest, WellTagged;
      forall k | k in stored ensures k.digest in DigestSet() <==> k in graph.nodes {
        if k.digest in DigestSet() {
          var n :| n in graph.nodes && n.digest == k.digest;
          assert keyOf(n.digest) == n && keyOf(k.digest) == k;
        }
      }
    }

    /**
     Removes every blob with a valid digest that is not below a tagged manifest or an accepted untagged one.  If every
     untagged manifest is anchored it returns, and the blobs that stay do not depend on the iteration order.
     */
    method GC(order: seq<string>) returns (result: GcResult, ghost accepted: seq<Key>)
      requires Valid() && ListsKnownKeys(contents, storage, keyOf) && IsIteration(tagResolver.index, order)
      modifies this`storage, this`graph, this`tagResolver
      ensures result == ResultOf(Accept(contents, old(storage), TaggedKeys(old(tagResolver.index)), Candidates(old(tagResolver.index), order)))
      ensures !result.Returned? ==> storage == old(storage) && graph == old(graph) && tagResolver == old(tagResolver)
      ensures result.Returned? ==> Valid() && Restores(tagResolver, old(tagResolver.index), {}, old(tagResolver.index).Keys)
      ensures result.Returned? ==> storage == Survivors(contents, old(storage), TaggedKeys(old(tagResolver.index)) + ToSet(accepted))
      ensures result.Returned? ==> TaggedSurvive(contents, old(storage), old(tagResolver.index), storage)
      ensures result.Returned? ==> ListedSurvive(contents, old(storage), old(tagResolver.index), storage)
      ensures result.Returned? ==> forall k :: k in old(storage) && IsDigest(k.digest) ==> (k in storage <==> k in graph.nodes)
      ensures result.Returned? && old(IndexSaved()) ==> (IndexSaved() <==>
                forall r :: IsCandidate(old(tagResolver.index), r) ==> Subject(contents, FromOCI(old(tagResolver.index)[r])).Some?)
      ensures AllAnchored(contents, old(storage), old(tagResolver.index)) ==>
                result.Returned? && ToSet(accepted) == ReferrerKeys(contents, old(tagResolver.index))
    {
      ghost var stored, index := storage, tagResolver.index;
      if AllAnchored(contents, stored, index) {
        AllAnchoredEnds(contents, stored, index, order);
        EveryReferrerAccepted(contents, index, order);
      }
      assert WellTagged(index);
      hide Agree, InGraph, Accept, Candidates, WithSubject, ReferrerKeys, AllAnchored, IsIteration, TaggedKeys, TaggedSurvive, ListedSurvive,
        Saved, IsCandidate, Rebuilt, TagsKept, UntaggedKept, WellTagged, Survivors, ListsKnownKeys;
      result, accepted := GcIndex(order);
      if result.Returned? {
        if Saved(index, manifests) {
          StillSaved(contents, index, tagResolver.index, manifests);
        }
        SurvivorsHoldTagged(contents, stored, index, ToSet(accepted));
        TaggedKeepListed(contents, stored, index, Survivors(contents, stored, TaggedKeys(index) + ToSet(accepted)));
        SweptIsSurvivors(stored, TaggedKeys(index) + ToSet(accepted));
        Sweep(DigestSet());
      }
    }

    /** A store opened later over the same directory is valid and resolves the same references to the same content. */
    method Reopen() returns (again: Store)
      requires Valid() && IndexSaved() && ListsKnownKeys(contents, storage, keyOf)
      ensures fresh(again) && again.storage == storage && again.Valid() && again.IndexSaved()
      ensures again.tagResolver.index.Keys == tagResolver.index.Keys
      ensures forall r :: r in tagResolver.index ==> FromOCI(again.tagResolver.index[r]) == FromOCI(tagResolver.index[r])
      ensures forall r :: IsTag(tagResolver.index, r) ==> NamedCopy(tagResolver.index[r], r, again.tagResolver.index[r])
      ensures again.Indexes(again.graph, ToSet(Keys(manifests)))
    {
      SameReferences(tagResolver.index, manifests);
      forall r | r in tagResolver.index
        ensures FromOCI(Load(manifests)[r]) == FromOCI(tagResolver.index[r])
        ensures IsTag(tagResolver.index, r) ==> NamedCopy(tagResolver.index[r], r, Load(manifests)[r])
      {
        RoundTrip(tagResolver.index, manifests, r);
      }
      SavedIsOpenable(keyOf, contents, storage, graph.nodes.Keys, tagResolver.index, manifests);
      SavedAgain(tagResolver.index, manifests);
      hide Saved, Agree, WellTagged, Load, InGraph, Openable, NamedCopy;
      again := new Store.Open(contents, autoGC, autoSaveIndex, keyOf, storage, manifests);
    }
  }
}
