/** What a cascading delete removes from a store: the target, its referrers and the orphans it leaves. */
module Cascades {
  import opened Descriptors
  import opened GraphMemory
  import opened Resolver

  /** y is a manifest whose subject is the manifest x. */
  ghost predicate IsReferrer(contents: Contents, y: Key, x: Key) {
    Subject(contents, y).Some? && FromOCI(Subject(contents, y).value) == x && IsManifest(x.mediaType)
  }

  /** An image manifest without an artifact type of its own has that of its config. */
  function ArtifactType(contents: Contents, k: Key): string {
    var content := contents(k);
    if k.mediaType == IMAGE_MANIFEST && content.artifactType == "" then content.configMediaType else content.artifactType
  }

  /** The descriptor under which a referrer is listed. */
  function AsReferrer(contents: Contents, d: Descriptor): Descriptor {
    d.(artifactType := ArtifactType(contents, FromOCI(d)), annotations := contents(FromOCI(d)).annotations)
  }

  /** The manifest behind d may have a subject, and has this one. */
  ghost predicate RefersTo(contents: Contents, d: Descriptor, x: Key) {
    CanHaveSubject(d.mediaType) && contents(FromOCI(d)).subject.Some? && FromOCI(contents(FromOCI(d)).subject.value) == x
  }

  /** The descriptor carries the annotations of the manifest and its artifact type, which for an image may be that of its config. */
  ghost predicate DescribedAs(d: Descriptor, content: Content) {
    && d.annotations == content.annotations
    && (content.artifactType != "" ==> d.artifactType == content.artifactType)
    && (content.artifactType == "" ==> d.artifactType == if d.mediaType == IMAGE_MANIFEST then content.configMediaType else "")
  }

  lemma ListedAsReferrer(contents: Contents, d: Descriptor, x: Key)
    requires d == AsReferrer(contents, d) && IsReferrer(contents, FromOCI(d), x)
    ensures RefersTo(contents, d, x) && DescribedAs(d, contents(FromOCI(d))) && d.artifactType == ArtifactType(contents, FromOCI(d))
  {
  }

  lemma ReferrerLists(contents: Contents, y: Key, x: Key)
    requires IsReferrer(contents, y, x)
    ensures x in SuccessorKeys(contents, y)
  {
    var listed := Successors(contents, y);
    assert Keys(listed)[0] == x;
  }

  /** x lost its last indexed predecessor when the nodes in `gone` went. */
  ghost predicate Orphaned(contents: Contents, nodes: set<Key>, gone: set<Key>, x: Key) {
    && x in nodes
    && (exists p :: p in nodes && p in gone && x in SuccessorKeys(contents, p))
    && (forall n :: n in nodes && x in SuccessorKeys(contents, n) ==> n in gone)
  }

  /** Why a cascading delete may remove x: it is the target, a referrer of something removed, or an untagged orphan. */
  ghost predicate Justified(contents: Contents, nodes: set<Key>, tags: TagSets, target: Key, gone: set<Key>, x: Key) {
    || x == target
    || (x in nodes && exists s :: s in gone && IsReferrer(contents, x, s))
    || (Orphaned(contents, nodes, gone, x) && !IsTagged(tags, x))
  }

  /** h was the last of the indexed nodes to list the indexed node x. */
  ghost predicate LastLister(contents: Contents, nodes: set<Key>, h: Key, x: Key) {
    && h in nodes && x in SuccessorKeys(contents, h) && x in nodes
    && forall n :: n in nodes && n != h ==> x !in SuccessorKeys(contents, n)
  }

  ghost predicate Queued(queue: seq<Descriptor>, x: Key) {
    exists i :: 0 <= i < |queue| && FromOCI(queue[i]) == x
  }

  /** The state of a cascading delete: what is gone and what is queued is justified, and nothing that must go is forgotten. */
  ghost predicate Cascade(contents: Contents, nodes: set<Key>, tags: TagSets, target: Key, gone: set<Key>, queue: seq<Descriptor>) {
    && (target in gone || Queued(queue, target))
    && (forall x :: x in gone ==> Justified(contents, nodes, tags, target, gone, x))
    && (forall i :: 0 <= i < |queue| ==> Justified(contents, nodes, tags, target, gone, FromOCI(queue[i])))
    && (forall x, y :: x in gone && y in nodes && IsReferrer(contents, y, x) ==> y in gone || Queued(queue, y))
    && (forall x :: x !in gone && Orphaned(contents, nodes, gone, x) ==> IsTagged(tags, x) || Queued(queue, x))
  }

  lemma CascadeStart(contents: Contents, nodes: set<Key>, tags: TagSets, target: Descriptor)
    ensures Cascade(contents, nodes, tags, FromOCI(target), {}, [target])
  {
    assert [target][0] == target;
    assert Queued([target], FromOCI(target));
  }

  lemma CascadeEnd(contents: Contents, nodes: set<Key>, tags: TagSets, target: Key, gone: set<Key>)
    requires Cascade(contents, nodes, tags, target, gone, [])
    ensures target in gone
    ensures forall x, y :: x in gone && y in nodes && IsReferrer(contents, y, x) ==> y in gone
    ensures forall x :: x in nodes - gone && Orphaned(contents, nodes, gone, x) ==> IsTagged(tags, x)
  {
    assert forall x :: !Queued([], x);
  }

  lemma JustifiedGrows(contents: Contents, nodes: set<Key>, tags: TagSets, target: Key, gone: set<Key>, h: Key, x: Key)
    requires Justified(contents, nodes, tags, target, gone, x)
    ensures Justified(contents, nodes, tags, target, gone + {h}, x)
  {
    if x in nodes && exists s :: s in gone && IsReferrer(contents, x, s) {
      var s :| s in gone && IsReferrer(contents, x, s);
      assert s in gone + {h};
    } else if Orphaned(contents, nodes, gone, x) {
      var p :| p in nodes && p in gone && x in SuccessorKeys(contents, p);
      assert p in gone + {h};
    }
  }

  lemma QueuedConcat(a: seq<Descriptor>, b: seq<Descriptor>, x: Key)
    ensures Queued(a + b, x) <==> Queued(a, x) || Queued(b, x)
  {
    if Queued(a, x) {
      var i :| 0 <= i < |a| && FromOCI(a[i]) == x;
      assert (a + b)[i] == a[i];
    } else if Queued(b, x) {
      var i :| 0 <= i < |b| && FromOCI(b[i]) == x;
      assert (a + b)[|a| + i] == b[i];
    }
  }

  /** The head goes; its referrers and the untagged orphans it leaves are queued. */
  lemma CascadeStep(contents: Contents, nodes: set<Key>, tags: TagSets, target: Key, gone: set<Key>,
                    head: Descriptor, rest: seq<Descriptor>, added: seq<Descriptor>)
    requires Cascade(contents, nodes, tags, target, gone, [head] + rest)
    requires forall y :: y in nodes && y !in gone && IsReferrer(contents, y, FromOCI(head)) ==> Queued(added, y)
    requires forall x :: x !in gone + {FromOCI(head)} && FromOCI(head) in nodes && x in SuccessorKeys(contents, FromOCI(head)) ==>
               Orphaned(contents, nodes, gone + {FromOCI(head)}, x) ==> IsTagged(tags, x) || Queued(added, x)
    requires forall i :: 0 <= i < |added| ==>
               Justified(contents, nodes, tags, target, gone + {FromOCI(head)}, FromOCI(added[i]))
    ensures Cascade(contents, nodes, tags, target, gone + {FromOCI(head)}, rest + added)
  {
    var h := FromOCI(head);
    var gone', queue' := gone + {h}, rest + added;
    forall x ensures Queued([head] + rest, x) <==> x == h || Queued(rest, x)
             ensures Queued(queue', x) <==> Queued(rest, x) || Queued(added, x)
    {
      QueuedConcat([head], rest, x);
      QueuedConcat(rest, added, x);
      assert Queued([head], x) <==> x == h by { assert [head][0] == head; }
    }
    assert ([head] + rest)[0] == head;
    forall x | x in gone' ensures Justified(contents, nodes, tags, target, gone', x) {
      JustifiedGrows(contents, nodes, tags, target, gone, h, x);
    }
    forall i | 0 <= i < |queue'| ensures Justified(contents, nodes, tags, target, gone', FromOCI(queue'[i])) {
      if i < |rest| {
        assert ([head] + rest)[i + 1] == queue'[i];
        JustifiedGrows(contents, nodes, tags, target, gone, h, FromOCI(queue'[i]));
      } else {
        assert queue'[i] == added[i - |rest|];
      }
    }
    forall x | x !in gone' && Orphaned(contents, nodes, gone', x) ensures IsTagged(tags, x) || Queued(queue', x) {
      OrphanedBy(contents, nodes, gone, h, x);
    }
  }

  lemma InKeysIsQueued(ds: seq<Descriptor>)
    ensures forall x :: x in Keys(ds) <==> Queued(ds, x)
  {
    forall x | x in Keys(ds) ensures Queued(ds, x) {
      var i :| 0 <= i < |ds| && Keys(ds)[i] == x;
      assert FromOCI(ds[i]) == x;
    }
    forall x | Queued(ds, x) ensures x in Keys(ds) {
      var i :| 0 <= i < |ds| && FromOCI(ds[i]) == x;
      assert Keys(ds)[i] == x;
    }
  }

  /** One turn of a cascading delete, with `now` the tag sets after it. */
  lemma CascadeTurn(contents: Contents, nodes: set<Key>, tags: TagSets, now: TagSets, target: Key, gone: set<Key>,
                    head: Descriptor, rest: seq<Descriptor>, added: seq<Descriptor>)
    requires Cascade(contents, nodes, tags, target, gone, [head] + rest) && FromOCI(head) !in gone
    requires forall k :: k in nodes && k !in gone && k != FromOCI(head) ==> TagsOf(now, k.digest) == TagsOf(tags, k.digest)
    requires forall x :: x in Keys(added) <==>
               || (x in nodes - gone && IsReferrer(contents, x, FromOCI(head)))
               || (LastLister(contents, nodes - gone, FromOCI(head), x) && !IsTagged(now, x))
    ensures Cascade(contents, nodes, tags, target, gone + {FromOCI(head)}, rest + added)
  {
    var h := FromOCI(head);
    InKeysIsQueued(added);
    forall x | x !in gone + {h} && h in nodes && x in SuccessorKeys(contents, h) && Orphaned(contents, nodes, gone + {h}, x)
      ensures IsTagged(tags, x) || Queued(added, x)
    {
      assert LastLister(contents, nodes - gone, h, x);
    }
    forall i | 0 <= i < |added| ensures Justified(contents, nodes, tags, target, gone + {h}, FromOCI(added[i])) {
      var x := FromOCI(added[i]);
      assert Queued(added, x);
      if x == h {
        assert ([head] + rest)[0] == head;
        JustifiedGrows(contents, nodes, tags, target, gone, h, x);
      } else if LastLister(contents, nodes - gone, h, x) && !IsTagged(now, x) {
        assert h in gone + {h};
        assert Orphaned(contents, nodes, gone + {h}, x);
      } else {
        assert h in gone + {h};
      }
    }
    CascadeStep(contents, nodes, tags, target, gone, head, rest, added);
  }

  /** A node orphaned after h went was orphaned before, or h was its last predecessor. */
  lemma OrphanedBy(contents: Contents, nodes: set<Key>, gone: set<Key>, h: Key, x: Key)
    requires Orphaned(contents, nodes, gone + {h}, x)
    ensures Orphaned(contents, nodes, gone, x) || (h in nodes && x in SuccessorKeys(contents, h))
  {
    if !(h in nodes && x in SuccessorKeys(contents, h)) {
      var p :| p in nodes && p in gone + {h} && x in SuccessorKeys(contents, p);
      assert p in gone;
    }
  }
}
