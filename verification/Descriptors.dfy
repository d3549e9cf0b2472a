/** Descriptors, the keys derived from them, and the media types the library branches on. */
module Descriptors {

  datatype Option<+T> = None | Some(value: T)

  /** An OCI descriptor, cut down to the fields the modelled code reads or writes. */
  datatype Descriptor = Descriptor(
    mediaType: string,
    digest: string,
    size: int,
    artifactType: string,
    annotations: map<string, string>)

  /** The comparable part of a descriptor; two descriptors point to the same content iff their keys agree. */
  datatype Key = Key(mediaType: string, digest: string, size: int)

  function FromOCI(d: Descriptor): Key {
    Key(d.mediaType, d.digest, d.size)
  }

  /** Keeps media type, digest and size only. */
  function Plain(k: Key): Descriptor {
    Descriptor(k.mediaType, k.digest, k.size, "", map[])
  }

  function Keys(ds: seq<Descriptor>): (ks: seq<Key>)
    ensures |ks| == |ds|
    ensures forall i :: 0 <= i < |ds| ==> ks[i] == FromOCI(ds[i])
  {
    seq(|ds|, i requires 0 <= i < |ds| => FromOCI(ds[i]))
  }

  ghost function KeySet(ds: seq<Descriptor>): set<Key> {
    set i | 0 <= i < |ds| :: FromOCI(ds[i])
  }

  const DOCKER_MANIFEST := "application/vnd.docker.distribution.manifest.v2+json"
  const DOCKER_MANIFEST_LIST := "application/vnd.docker.distribution.manifest.list.v2+json"
  const DOCKER_FOREIGN_LAYER := "application/vnd.docker.image.rootfs.foreign.diff.tar.gzip"
  const IMAGE_MANIFEST := "application/vnd.oci.image.manifest.v1+json"
  const IMAGE_INDEX := "application/vnd.oci.image.index.v1+json"
  const ARTIFACT_MANIFEST := "application/vnd.oci.artifact.manifest.v1+json"
  const NON_DISTRIBUTABLE := "application/vnd.oci.image.layer.nondistributable.v1.tar"
  const NON_DISTRIBUTABLE_GZIP := "application/vnd.oci.image.layer.nondistributable.v1.tar+gzip"
  const NON_DISTRIBUTABLE_ZSTD := "application/vnd.oci.image.layer.nondistributable.v1.tar+zstd"

  predicate IsManifest(mediaType: string) {
    || mediaType == DOCKER_MANIFEST
    || mediaType == DOCKER_MANIFEST_LIST
    || CanHaveSubject(mediaType)
  }

  /** The manifest types whose subject field is honoured. */
  predicate CanHaveSubject(mediaType: string) {
    || mediaType == IMAGE_MANIFEST
    || mediaType == IMAGE_INDEX
    || mediaType == ARTIFACT_MANIFEST
  }

  /** Five kinds of manifest are known, and exactly those that are not Docker's can have a subject. */
  lemma ManifestKinds(mediaType: string)
    ensures IsManifest(mediaType) <==>
              mediaType in {DOCKER_MANIFEST, DOCKER_MANIFEST_LIST, IMAGE_MANIFEST, IMAGE_INDEX, ARTIFACT_MANIFEST}
    ensures CanHaveSubject(mediaType) <==> IsManifest(mediaType) && mediaType !in {DOCKER_MANIFEST, DOCKER_MANIFEST_LIST}
  {
    assert DOCKER_MANIFEST[16] == DOCKER_MANIFEST_LIST[16] == 'd';
    assert IMAGE_MANIFEST[16] == IMAGE_INDEX[16] == ARTIFACT_MANIFEST[16] == 'o';
  }

  predicate IsForeignLayer(d: Descriptor) {
    || d.mediaType == NON_DISTRIBUTABLE
    || d.mediaType == NON_DISTRIBUTABLE_GZIP
    || d.mediaType == NON_DISTRIBUTABLE_ZSTD
    || d.mediaType == DOCKER_FOREIGN_LAYER
  }

  /** The descriptors that are not foreign layers, in their order. */
  function NonForeign(ds: seq<Descriptor>): seq<Descriptor> {
    if ds == [] then []
    else
      var front := NonForeign(ds[..|ds| - 1]);
      if IsForeignLayer(ds[|ds| - 1]) then front else front + [ds[|ds| - 1]]
  }

  lemma {:induction false} NonForeignKeepsExactly(ds: seq<Descriptor>, d: Descriptor)
    ensures d in NonForeign(ds) <==> d in ds && !IsForeignLayer(d)
  {
    if ds != [] {
      NonForeignKeepsExactly(ds[..|ds| - 1], d);
      assert ds == ds[..|ds| - 1] + [ds[|ds| - 1]];
    }
  }

  /** Compacts the slice in place: the first `j` cells hold the layers to copy, the rest of the array is untouched garbage. */
  method RemoveForeignLayers(descs: array<Descriptor>) returns (j: nat)
    modifies descs
    ensures j <= descs.Length
    ensures descs[..j] == NonForeign(old(descs[..]))
  {
    j := 0;
    for i := 0 to descs.Length
      invariant j <= i
      invariant descs[..j] == NonForeign(old(descs[..])[..i])
      invariant forall m :: i <= m < descs.Length ==> descs[m] == old(descs[m])
    {
      var desc := descs[i];
      assert old(descs[..])[..i + 1][..i] == old(descs[..])[..i];
      if !IsForeignLayer(desc) {
        if i != j {
          descs[j] := desc;
        }
        j := j + 1;
      }
    }
    assert old(descs[..])[..descs.Length] == old(descs[..]);
  }
}
