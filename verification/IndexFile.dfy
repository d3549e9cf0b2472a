/** Writing the tag resolver to index.json and reading it back. */
module IndexFile {
  import opened Descriptors

  const REF_NAME := "org.opencontainers.image.ref.name"

  /** What the resolver holds: references, by tag or by digest, and the descriptors they resolve to. */
  type References = map<string, Descriptor>

  function WithRefName(d: Descriptor, reference: string): Descriptor {
    d.(annotations := d.annotations[REF_NAME := reference])
  }

  function DeleteRefName(d: Descriptor): Descriptor {
    d.(annotations := d.annotations - {REF_NAME})
  }

  /** Equal but for the reference name. */
  ghost predicate SameButName(d: Descriptor, v: Descriptor) {
    && v.mediaType == d.mediaType && v.digest == d.digest && v.size == d.size && v.artifactType == d.artifactType
    && forall a :: a != REF_NAME ==>
         && (a in v.annotations <==> a in d.annotations)
         && (a in d.annotations ==> v.annotations[a] == d.annotations[a])
  }

  /** v is d under the reference name r. */
  ghost predicate NamedCopy(d: Descriptor, r: string, v: Descriptor) {
    SameButName(d, v) && REF_NAME in v.annotations && v.annotations[REF_NAME] == r
  }

  /** v is d without a reference name. */
  ghost predicate UnnamedCopy(d: Descriptor, v: Descriptor) {
    SameButName(d, v) && REF_NAME !in v.annotations
  }

  lemma CopiesAreExact(d: Descriptor, r: string, v: Descriptor)
    ensures v == WithRefName(d, r) <==> NamedCopy(d, r, v)
    ensures v == DeleteRefName(d) <==> UnnamedCopy(d, v)
  {
    if NamedCopy(d, r, v) {
      assert v.annotations.Keys == WithRefName(d, r).annotations.Keys;
      assert v.annotations == WithRefName(d, r).annotations;
    }
    if UnnamedCopy(d, v) {
      assert v.annotations.Keys == DeleteRefName(d).annotations.Keys;
      assert v.annotations == DeleteRefName(d).annotations;
    }
  }

  /** The algorithm, a colon and so many lower-case hexadecimal digits. */
  predicate IsEncoded(s: string, algorithm: string, digits: nat) {
    && |s| == |algorithm| + 1 + digits && algorithm + ":" <= s
    && forall i :: |algorithm| < i < |s| ==> '0' <= s[i] <= '9' || 'a' <= s[i] <= 'f'
  }

  /** A valid digest string; every other string may be a tag. */
  predicate IsDigest(s: string) {
    IsEncoded(s, "sha256", 64) || IsEncoded(s, "sha384", 96) || IsEncoded(s, "sha512", 128)
  }

  predicate IsHex(s: string) {
    forall i :: 0 <= i < |s| ==> '0' <= s[i] <= '9' || 'a' <= s[i] <= 'f'
  }

  /** Exactly 64, 96 or 128 hexadecimal digits after the name of the algorithm make a digest. */
  lemma DigestsAreEncoded(algorithm: string, encoded: string)
    requires ':' !in algorithm
    ensures IsDigest(algorithm + ":" + encoded) <==>
              && IsHex(encoded)
              && (|| (algorithm == "sha256" && |encoded| == 64) || (algorithm == "sha384" && |encoded| == 96)
                  || (algorithm == "sha512" && |encoded| == 128))
  {
    EncodedMeans("sha256", algorithm, encoded, 64);
    EncodedMeans("sha384", algorithm, encoded, 96);
    EncodedMeans("sha512", algorithm, encoded, 128);
  }

  lemma EncodedMeans(name: string, algorithm: string, encoded: string, digits: nat)
    requires ':' !in algorithm && ':' !in name
    ensures IsEncoded(algorithm + ":" + encoded, name, digits) <==> algorithm == name && IsHex(encoded) && |encoded| == digits
  {
    var s := algorithm + ":" + encoded;
    assert s[|algorithm|] == ':' && forall i :: 0 <= i < |algorithm| ==> s[i] == algorithm[i];
    assert forall i :: 0 <= i < |encoded| ==> s[|algorithm| + 1 + i] == encoded[i];
    if name + ":" <= s {
      assert s[|name|] == ':' && forall i :: 0 <= i < |name| ==> s[i] == name[i];
      assert |name| == |algorithm|;
      assert name == s[..|name|] == algorithm;
    }
  }

  /** Digest strings resolve to the content with that digest, and whatever a tag resolves to also resolves by digest. */
  ghost predicate WellTagged(m: References) {
    && "" !in m
    && forall r :: r in m ==>
         && IsDigest(m[r].digest)
         && (IsDigest(r) ==> r == m[r].digest)
         && m[r].digest in m && FromOCI(m[m[r].digest]) == FromOCI(m[r])
  }

  predicate IsTag(m: References, r: string) {
    r in m && r != m[r].digest
  }

  predicate HasTag(m: References, digest: string) {
    exists r :: r in m && IsTag(m, r) && m[r].digest == digest
  }

  /** Reference r is written as manifest d. */
  ghost predicate WrittenAs(m: References, r: string, d: Descriptor) {
    r in m &&
    if IsTag(m, r) then d == WithRefName(m[r], r)
    else !HasTag(m, m[r].digest) && d == DeleteRefName(m[r])
  }

  ghost predicate Stands(m: References, d: Descriptor) {
    exists r :: WrittenAs(m, r, d)
  }

  ghost predicate Written(m: References, r: string, manifests: seq<Descriptor>) {
    exists i :: 0 <= i < |manifests| && WrittenAs(m, r, manifests[i])
  }

  /** The manifests of an index file that stands for m: one for each tag, and one for each digest without a tag, in any order. */
  ghost predicate Saved(m: References, manifests: seq<Descriptor>) {
    && (forall i :: 0 <= i < |manifests| ==> Stands(m, manifests[i]))
    && (forall r :: r in m && (IsTag(m, r) || !HasTag(m, m[r].digest)) ==> Written(m, r, manifests))
  }

  /** d is a copy of what r resolves to: under its name if r is a tag, without a name if r is a digest that has no tag. */
  ghost predicate IsCopyFor(m: References, r: string, d: Descriptor) {
    r in m && if IsTag(m, r) then NamedCopy(m[r], r, d) else !HasTag(m, r) && UnnamedCopy(m[r], d)
  }

  ghost predicate HasCopy(m: References, r: string, manifests: seq<Descriptor>) {
    exists i :: 0 <= i < |manifests| && IsCopyFor(m, r, manifests[i])
  }

  ghost predicate IsCopy(m: References, d: Descriptor) {
    exists r :: IsCopyFor(m, r, d)
  }

  /** A copy for each tag and for each digest without a tag, and nothing else. */
  ghost predicate HoldsCopies(m: References, manifests: seq<Descriptor>) {
    && (forall r :: r in m && (IsTag(m, r) || !HasTag(m, r)) ==> HasCopy(m, r, manifests))
    && (forall i :: 0 <= i < |manifests| ==> IsCopy(m, manifests[i]))
  }

  lemma WrittenIsCopy(m: References, r: string, d: Descriptor)
    ensures WrittenAs(m, r, d) <==> IsCopyFor(m, r, d)
  {
    if r in m {
      CopiesAreExact(m[r], r, d);
    }
    hide NamedCopy, UnnamedCopy, WithRefName, DeleteRefName;
  }

  lemma SavedHoldsCopies(m: References, manifests: seq<Descriptor>)
    requires Saved(m, manifests)
    ensures HoldsCopies(m, manifests)
  {
    forall r | r in m && (IsTag(m, r) || !HasTag(m, r)) ensures HasCopy(m, r, manifests) {
      assert Written(m, r, manifests);
      var i :| 0 <= i < |manifests| && WrittenAs(m, r, manifests[i]);
      WrittenIsCopy(m, r, manifests[i]);
    }
    forall i | 0 <= i < |manifests| ensures IsCopy(m, manifests[i]) {
      var r :| WrittenAs(m, r, manifests[i]);
      WrittenIsCopy(m, r, manifests[i]);
    }
  }

  /** saveIndex: first the tagged descriptors, then those known by digest only; map iteration order is arbitrary. */
  method SaveIndex(m: References) returns (manifests: seq<Descriptor>)
    ensures Saved(m, manifests) && HoldsCopies(m, manifests)
  {
    manifests := [];
    var tagged: set<string> := {};
    var left := m.Keys;
    while left != {}
      invariant left <= m.Keys
      invariant forall i :: 0 <= i < |manifests| ==> Stands(m, manifests[i])
      invariant forall r :: r in m && r !in left && IsTag(m, r) ==> Written(m, r, manifests)
      invariant forall d :: d in tagged <==> exists r :: r in m && r !in left && IsTag(m, r) && m[r].digest == d
      decreases left
    {
      var ref :| ref in left;
      left := left - {ref};
      if ref != m[ref].digest {
        ghost var before := manifests;
        manifests := manifests + [WithRefName(m[ref], ref)];
        assert WrittenAs(m, ref, manifests[|before|]);
        Extended(m, before, manifests);
        assert Written(m, ref, manifests);
        tagged := tagged + {m[ref].digest};
      }
    }
    manifests := SaveUntagged(m, tagged, manifests);
    SavedHoldsCopies(m, manifests);
  }

  method SaveUntagged(m: References, tagged: set<string>, saved: seq<Descriptor>) returns (manifests: seq<Descriptor>)
    requires forall d :: d in tagged <==> HasTag(m, d)
    requires forall i :: 0 <= i < |saved| ==> Stands(m, saved[i])
    requires forall r :: r in m && IsTag(m, r) ==> Written(m, r, saved)
    ensures Saved(m, manifests)
  {
    manifests := saved;
    var left := m.Keys;
    while left != {}
      invariant left <= m.Keys
      invariant forall i :: 0 <= i < |manifests| ==> Stands(m, manifests[i])
      invariant forall r :: r in m && IsTag(m, r) ==> Written(m, r, manifests)
      invariant forall r :: r in m && r !in left && !HasTag(m, m[r].digest) ==> Written(m, r, manifests)
      decreases left
    {
      var ref :| ref in left;
      left := left - {ref};
      if ref == m[ref].digest && m[ref].digest !in tagged {
        ghost var before := manifests;
        manifests := manifests + [DeleteRefName(m[ref])];
        assert WrittenAs(m, ref, manifests[|before|]);
        Extended(m, before, manifests);
        assert Written(m, ref, manifests);
      }
    }
  }

  lemma Extended(m: References, before: seq<Descriptor>, after: seq<Descriptor>)
    requires before <= after
    ensures forall r :: Written(m, r, before) ==> Written(m, r, after)
  {
    forall r | Written(m, r, before) ensures Written(m, r, after) {
      var i :| 0 <= i < |before| && WrittenAs(m, r, before[i]);
      assert after[i] == before[i];
    }
  }

  function RefName(d: Descriptor): string {
    if REF_NAME in d.annotations then d.annotations[REF_NAME] else ""
  }

  /** loadIndex on one manifest: tag it by digest, then by its reference name. */
  function LoadOne(m: References, d: Descriptor): References {
    var byDigest := m[d.digest := DeleteRefName(d)];
    if RefName(d) == "" then byDigest else byDigest[RefName(d) := d]
  }

  function Load(manifests: seq<Descriptor>): References {
    if manifests == [] then map[] else LoadOne(Load(manifests[..|manifests| - 1]), manifests[|manifests| - 1])
  }

  /** Manifest d makes reference r resolve to v. */
  ghost predicate Defines(d: Descriptor, r: string, v: Descriptor) {
    (r == RefName(d) && r != "" && v == d) || (r == d.digest && v == DeleteRefName(d))
  }

  ghost predicate Mentions(d: Descriptor, r: string) {
    r == d.digest || (r == RefName(d) && r != "")
  }

  /** A loaded reference resolves to what some manifest defines for it, and every mentioned reference resolves. */
  lemma {:induction false} LoadedFrom(manifests: seq<Descriptor>)
    ensures forall r :: r in Load(manifests) ==> exists i :: 0 <= i < |manifests| && Defines(manifests[i], r, Load(manifests)[r])
    ensures forall i, r :: 0 <= i < |manifests| && Mentions(manifests[i], r) ==> r in Load(manifests)
  {
    if manifests != [] {
      var n := |manifests| - 1;
      var front := manifests[..n];
      LoadedFrom(front);
      forall r | r in Load(manifests) ensures exists i :: 0 <= i < |manifests| && Defines(manifests[i], r, Load(manifests)[r]) {
        if Mentions(manifests[n], r) {
          assert Defines(manifests[n], r, Load(manifests)[r]);
        } else {
          var i :| 0 <= i < |front| && Defines(front[i], r, Load(front)[r]);
          assert manifests[i] == front[i];
        }
      }
      forall i, r | 0 <= i < |manifests| && Mentions(manifests[i], r) ensures r in Load(manifests) {
        if i < n {
          assert front[i] == manifests[i];
        }
      }
    }
  }

  /** What a written manifest defines agrees with the resolver it was written from. */
  lemma DefinedRight(m: References, q: string, d: Descriptor, r: string, v: Descriptor)
    requires WellTagged(m) && WrittenAs(m, q, d) && Defines(d, r, v)
    ensures r in m && FromOCI(v) == FromOCI(m[r])
    ensures IsTag(m, r) ==> v == WithRefName(m[r], r)
  {
    assert IsDigest(d.digest);
  }

  lemma RestoredKey(m: References, manifests: seq<Descriptor>, r: string)
    requires WellTagged(m) && Saved(m, manifests) && r in m
    ensures r in Load(manifests)
  {
    LoadedFrom(manifests);
    var q := if IsTag(m, r) || !HasTag(m, m[r].digest) then r else var t :| t in m && IsTag(m, t) && m[t].digest == m[r].digest; t;
    assert Written(m, q, manifests);
    var i :| 0 <= i < |manifests| && WrittenAs(m, q, manifests[i]);
    assert Mentions(manifests[i], r);
  }

  lemma Restored(m: References, manifests: seq<Descriptor>, r: string)
    requires WellTagged(m) && Saved(m, manifests) && r in Load(manifests)
    ensures r in m && FromOCI(Load(manifests)[r]) == FromOCI(m[r])
    ensures IsTag(m, r) ==> Load(manifests)[r] == WithRefName(m[r], r)
  {
    LoadedFrom(manifests);
    var i :| 0 <= i < |manifests| && Defines(manifests[i], r, Load(manifests)[r]);
    var q :| WrittenAs(m, q, manifests[i]);
    DefinedRight(m, q, manifests[i], r, Load(manifests)[r]);
  }

  lemma SameReferences(m: References, manifests: seq<Descriptor>)
    requires WellTagged(m) && Saved(m, manifests)
    ensures Load(manifests).Keys == m.Keys
  {
    forall r | r in Load(manifests).Keys ensures r in m.Keys {
      Restored(m, manifests, r);
    }
    forall r | r in m.Keys ensures r in Load(manifests).Keys {
      RestoredKey(m, manifests, r);
    }
  }

  /** Saving and loading restores every reference, for every order in which the maps were iterated. */
  lemma RoundTrip(m: References, manifests: seq<Descriptor>, r: string)
    requires WellTagged(m) && Saved(m, manifests)
    ensures r in Load(manifests) <==> r in m
    ensures r in m ==> FromOCI(Load(manifests)[r]) == FromOCI(m[r])
    ensures IsTag(m, r) ==> Load(manifests)[r] == WithRefName(m[r], r) && NamedCopy(m[r], r, Load(manifests)[r])
    ensures r in m && !IsTag(m, r) && !HasTag(m, r) ==> UnnamedCopy(m[r], Load(manifests)[r])
    ensures r in m && !IsTag(m, r) && HasTag(m, r) ==> exists t :: IsTag(m, t) && m[t].digest == r && UnnamedCopy(m[t], Load(manifests)[r])
  {
    SameReferences(m, manifests);
    assert r in Load(manifests) <==> r in m;
    if r in m {
      Restored(m, manifests, r);
      CopiesAreExact(m[r], r, Load(manifests)[r]);
      if !IsTag(m, r) && !HasTag(m, r) {
        RestoredDigest(m, manifests, r);
      } else if !IsTag(m, r) {
        var t := RestoredFromTag(m, manifests, r);
        CopiesAreExact(m[t], t, Load(manifests)[r]);
      }
    }
  }

  /** The digest of tagged content is restored from one of its tags. */
  lemma RestoredFromTag(m: References, manifests: seq<Descriptor>, r: string) returns (t: string)
    requires WellTagged(m) && Saved(m, manifests) && r in m && !IsTag(m, r) && HasTag(m, r) && r in Load(manifests)
    ensures IsTag(m, t) && m[t].digest == r && Load(manifests)[r] == DeleteRefName(m[t])
  {
    LoadedFrom(manifests);
    var i :| 0 <= i < |manifests| && Defines(manifests[i], r, Load(manifests)[r]);
    t :| WrittenAs(m, t, manifests[i]);
    DefinedFromTag(m, t, manifests[i], r, Load(manifests)[r]);
  }

  lemma DefinedFromTag(m: References, t: string, d: Descriptor, r: string, v: Descriptor)
    requires WellTagged(m) && WrittenAs(m, t, d) && Defines(d, r, v) && r in m && !IsTag(m, r) && HasTag(m, r)
    ensures IsTag(m, t) && m[t].digest == r && v == DeleteRefName(m[t])
  {
    NamedTwice(m[t], t);
    assert DeleteRefName(WithRefName(m[t], t)) == DeleteRefName(m[t]);
    hide RefName, WithRefName, DeleteRefName, HasTag, IsDigest;
  }

  lemma SameTags(m: References, n: References, digest: string)
    requires m.Keys == n.Keys && forall r :: r in m ==> FromOCI(n[r]) == FromOCI(m[r])
    ensures HasTag(m, digest) <==> HasTag(n, digest)
  {
    assert forall r :: IsTag(m, r) <==> IsTag(n, r);
    if r :| r in m && IsTag(m, r) && m[r].digest == digest {
      assert r in n && IsTag(n, r) && n[r].digest == digest;
    }
    if r :| r in n && IsTag(n, r) && n[r].digest == digest {
      assert r in m && IsTag(m, r) && m[r].digest == digest;
    }
  }

  lemma LoadedIsWellTagged(m: References, manifests: seq<Descriptor>)
    requires WellTagged(m) && Saved(m, manifests)
    ensures WellTagged(Load(manifests))
  {
    SameReferences(m, manifests);
    forall r | r in m ensures FromOCI(Load(manifests)[r]) == FromOCI(m[r]) { RoundTrip(m, manifests, r); }
  }

  lemma NamedTwice(d: Descriptor, r: string)
    ensures RefName(DeleteRefName(d)) == "" && DeleteRefName(DeleteRefName(d)) == DeleteRefName(d) && DeleteRefName(d).digest == d.digest
    ensures RefName(WithRefName(d, r)) == r && WithRefName(WithRefName(d, r), r) == WithRefName(d, r) && WithRefName(d, r).digest == d.digest
  {
  }

  /** An untagged digest is restored as it was written. */
  lemma RestoredDigest(m: References, manifests: seq<Descriptor>, r: string)
    requires WellTagged(m) && Saved(m, manifests) && r in m && !IsTag(m, r) && !HasTag(m, r)
    ensures r in Load(manifests) && Load(manifests)[r] == DeleteRefName(m[r])
  {
    RestoredKey(m, manifests, r);
    LoadedFrom(manifests);
    var i :| 0 <= i < |manifests| && Defines(manifests[i], r, Load(manifests)[r]);
    var q :| WrittenAs(m, q, manifests[i]);
    DefinedDigest(m, q, manifests[i], r, Load(manifests)[r]);
  }

  lemma DefinedDigest(m: References, q: string, d: Descriptor, r: string, v: Descriptor)
    requires WrittenAs(m, q, d) && Defines(d, r, v) && r in m && !IsTag(m, r) && !HasTag(m, r)
    ensures v == DeleteRefName(m[r])
  {
    NamedTwice(m[q], q);
    hide RefName, WithRefName, DeleteRefName;
    assert !IsTag(m, q);
  }

  /** What a manifest was written from is what it stands for after loading. */
  lemma WrittenAgain(m: References, manifests: seq<Descriptor>, r: string, d: Descriptor)
    requires WellTagged(m) && Saved(m, manifests) && WrittenAs(m, r, d)
    ensures WrittenAs(Load(manifests), r, d)
  {
    RoundTrip(m, manifests, r);
    NamedTwice(m[r], r);
    if IsTag(m, r) {
      hide Load, WithRefName, DeleteRefName, WellTagged, Saved;
      assert IsTag(Load(manifests), r);
    } else {
      RestoredDigest(m, manifests, r);
      SameReferences(m, manifests);
      forall x | x in m ensures FromOCI(Load(manifests)[x]) == FromOCI(m[x]) { RoundTrip(m, manifests, x); }
      SameTags(m, Load(manifests), m[r].digest);
      hide Load, WithRefName, DeleteRefName, WellTagged, Saved, HasTag;
      assert !IsTag(Load(manifests), r);
    }
  }

  /** A loaded index file also stands for what was loaded from it. */
  lemma SavedAgain(m: References, manifests: seq<Descriptor>)
    requires WellTagged(m) && Saved(m, manifests)
    ensures Saved(Load(manifests), manifests)
  {
    var n := Load(manifests);
    SameReferences(m, manifests);
    forall x | x in m ensures FromOCI(n[x]) == FromOCI(m[x]) { RoundTrip(m, manifests, x); }
    forall i | 0 <= i < |manifests| ensures Stands(n, manifests[i]) {
      var q :| WrittenAs(m, q, manifests[i]);
      WrittenAgain(m, manifests, q, manifests[i]);
    }
    forall r | r in n && (IsTag(n, r) || !HasTag(n, n[r].digest)) ensures Written(n, r, manifests) {
      SameTags(m, n, m[r].digest);
      assert Written(m, r, manifests);
      var i :| 0 <= i < |manifests| && WrittenAs(m, r, manifests[i]);
      WrittenAgain(m, manifests, r, manifests[i]);
    }
  }
}
