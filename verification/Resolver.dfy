/** The in-memory tag resolver. */
module Resolver {
  import opened Descriptors
  import opened IndexFile

  type TagSets = map<string, set<string>>

  function TagsOf(tags: TagSets, digest: string): set<string> {
    if digest in tags then tags[digest] else {}
  }

  /** isTagged: some reference other than the digest itself is in the tag set. */
  predicate IsTagged(tags: TagSets, k: Key) {
    var tagSet := TagsOf(tags, k.digest);
    if k.digest in tagSet then |tagSet| > 1 else |tagSet| > 0
  }

  lemma IsTaggedMeans(tags: TagSets, k: Key)
    ensures IsTagged(tags, k) <==> exists r :: r in TagsOf(tags, k.digest) && r != k.digest
  {
    var tagSet := TagsOf(tags, k.digest);
    if k.digest in tagSet {
      var others := tagSet - {k.digest};
      assert tagSet == others + {k.digest};
      assert |tagSet| == |others| + 1;
      if others != {} {
        var r :| r in others;
      }
    } else if tagSet != {} {
      var r :| r in tagSet;
    }
  }

  /** Every reference is in the tag set of the digest it resolves to. */
  ghost predicate Recorded(index: References, tags: TagSets) {
    forall r :: r in index ==> r in TagsOf(tags, index[r].digest)
  }

  /** Counted as tagged, without having a tag. */
  ghost predicate Stale(index: References, tags: TagSets, k: Key) {
    IsTagged(tags, k) && !HasTag(index, k.digest)
  }

  /** Every tag set holds exactly the references that resolve to its digest. */
  ghost predicate Exact(index: References, tags: TagSets) {
    forall d, r :: r in TagsOf(tags, d) <==> r in index && index[r].digest == d
  }

  function WithTag(tags: TagSets, digest: string, reference: string): TagSets {
    tags[digest := TagsOf(tags, digest) + {reference}]
  }

  lemma WithTagHolds(tags: TagSets, digest: string, reference: string, d: string, r: string)
    ensures r in TagsOf(WithTag(tags, digest, reference), d) <==> r in TagsOf(tags, d) || (d == digest && r == reference)
  {
  }

  lemma ExactIsNeverStale(index: References, tags: TagSets, k: Key)
    requires Exact(index, tags)
    ensures !Stale(index, tags, k)
  {
    IsTaggedMeans(tags, k);
    if r :| r in TagsOf(tags, k.digest) && r != k.digest {
      assert IsTag(index, r) && index[r].digest == k.digest;
    }
  }

  /** Tagging keeps the tag sets exact if and only if it does not move a reference to other content. */
  lemma StaysExactIff(index: References, tags: TagSets, desc: Descriptor, reference: string)
    requires Exact(index, tags)
    ensures Exact(index[reference := desc], WithTag(tags, desc.digest, reference)) <==>
              reference !in index || index[reference].digest == desc.digest
  {
    var index', tags' := index[reference := desc], WithTag(tags, desc.digest, reference);
    if reference !in index || index[reference].digest == desc.digest {
      forall d, r ensures r in TagsOf(tags', d) <==> r in index' && index'[r].digest == d {
        WithTagHolds(tags, desc.digest, reference, d, r);
      }
    } else {
      var d := index[reference].digest;
      WithTagHolds(tags, desc.digest, reference, d, reference);
      assert reference in TagsOf(tags, d) && reference in TagsOf(tags', d) && index'[reference].digest != d;
    }
  }

  lemma TaggedAfterTag(index: References, tags: TagSets, desc: Descriptor, reference: string, k: Key)
    requires Exact(index, tags)
    ensures IsTagged(WithTag(tags, desc.digest, reference), k) <==>
              HasTag(index, k.digest) || (k.digest == desc.digest && reference != k.digest)
  {
    var tags' := WithTag(tags, desc.digest, reference);
    IsTaggedMeans(tags', k);
    if r :| r in TagsOf(tags', k.digest) && r != k.digest {
      WithTagHolds(tags, desc.digest, reference, k.digest, r);
      assert r in TagsOf(tags, k.digest) ==> IsTag(index, r);
    }
    if r :| r in index && IsTag(index, r) && index[r].digest == k.digest {
      WithTagHolds(tags, desc.digest, reference, k.digest, r);
      assert r in TagsOf(tags, k.digest);
    }
    WithTagHolds(tags, desc.digest, reference, k.digest, reference);
  }

  /** Tagging makes exactly that content stale from which it takes its only tag. */
  lemma StaleAfterTagIff(index: References, tags: TagSets, desc: Descriptor, reference: string, k: Key)
    requires Exact(index, tags)
    ensures Stale(index[reference := desc], WithTag(tags, desc.digest, reference), k) <==>
              && k.digest != desc.digest
              && IsTag(index, reference) && index[reference].digest == k.digest
              && (forall r :: IsTag(index, r) && index[r].digest == k.digest ==> r == reference)
  {
    TaggedAfterTag(index, tags, desc, reference, k);
    hide IsTagged, Exact, WithTag;
    var index' := index[reference := desc];
    if k.digest == desc.digest && reference != k.digest {
      assert IsTag(index', reference);
    }
    forall r | r != reference ensures IsTag(index', r) <==> IsTag(index, r) {
    }
  }

  /** Moving a tag to other content leaves the old content without a tag, but counted as tagged. */
  method MoveTag(old_: Descriptor, new_: Descriptor, tag: string) returns (resolver: Memory)
    requires old_.digest != new_.digest && tag != old_.digest && tag != new_.digest
    ensures resolver.Valid() && tag in resolver.index && resolver.index[tag] == new_
    ensures Stale(resolver.index, resolver.tags, FromOCI(old_))
  {
    resolver := new Memory();
    StaysExactIff(map[], map[], old_, tag);
    resolver.Tag(old_, tag);
    StaleAfterTagIff(resolver.index, resolver.tags, new_, tag, FromOCI(old_));
    resolver.Tag(new_, tag);
  }

  class Memory {
    var index: References
    var tags: TagSets

    /** Every reference is in the tag set of the digest it resolves to; the tag sets may hold more, as retagging leaves the old entry behind. */
    ghost predicate Valid()
      reads this
    {
      && Recorded(index, tags)
      && (forall d :: d in tags ==> tags[d] != {})
    }

    constructor ()
      ensures Valid() && index == map[] && tags == map[]
    {
      index, tags := map[], map[];
    }

    method Tag(desc: Descriptor, reference: string)
      requires Valid()
      modifies this
      ensures Valid() && index == old(index)[reference := desc] && tags == WithTag(old(tags), desc.digest, reference)
      ensures forall d :: TagsOf(tags, d) == TagsOf(old(tags), d) + if d == desc.digest then {reference} else {}
    {
      index := index[reference := desc];
      tags := WithTag(tags, desc.digest, reference);
    }

    method Untag(reference: string)
      requires Valid()
      modifies this
      ensures Valid() && index == old(index) - {reference}
      ensures old(Exact(index, tags)) ==> Exact(index, tags)
      ensures forall d :: TagsOf(tags, d) ==
                TagsOf(old(tags), d) - if reference in old(index) && d == old(index)[reference].digest then {reference} else {}
    {
      if reference !in index {
        return;
      }
      var desc := index[reference];
      assert reference in TagsOf(tags, desc.digest);
      index := index - {reference};
      var tagSet := tags[desc.digest] - {reference};
      if tagSet == {} {
        tags := tags - {desc.digest};
      } else {
        tags := tags[desc.digest := tagSet];
      }
      assert forall d :: TagsOf(tags, d) == if d == desc.digest then TagsOf(old(tags), d) - {reference} else TagsOf(old(tags), d);
    }
  }
}
