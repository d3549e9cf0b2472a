/** Reading content and checking it against the size and digest of its descriptor. */
module VerifyingReader {
  import opened Descriptors

  type Byte = b: int | 0 <= b < 256

  /** The digest algorithm of a descriptor. */
  type Hash = seq<Byte> -> string

  datatype Error = EOF | UnexpectedEOF | Fault | EarlyVerify | TrailingData | MismatchedDigest | InvalidSize

  datatype Result = Content(bytes: seq<Byte>) | Failed(error: Error)

  /** A stream that hands out its data in chunks of its own choice, and then ends or breaks. */
  class Source {
    const data: seq<Byte>
    const broken: bool
    var pos: nat

    ghost predicate Valid()
      reads this
    {
      pos <= |data|
    }

    ghost function Left(): seq<Byte>
      requires Valid()
      reads this
    {
      data[pos..]
    }

    constructor (data: seq<Byte>, broken: bool)
      ensures Valid() && pos == 0 && this.data == data && this.broken == broken
    {
      this.data, this.broken, pos := data, broken, 0;
    }

    /** Any part of what is left, but something if anything was asked for; the end may be reported with the last chunk or after it. */
    method Read(limit: nat) returns (chunk: seq<Byte>, err: Option<Error>)
      requires Valid()
      modifies this
      ensures Valid() && pos == old(pos) + |chunk| && chunk == data[old(pos)..pos]
      ensures |chunk| <= limit && (err.None? && limit > 0 ==> chunk != [])
      ensures err.Some? ==> pos == |data| && err.value == if broken then Fault else EOF
    {
      var end := if broken then Fault else EOF;
      if pos == |data| {
        return [], Some(end);
      }
      var most := if limit < |data| - pos then limit else |data| - pos;
      var n: nat := *;
      n := if most == 0 then 0 else 1 + n % most;
      chunk := data[pos..pos + n];
      pos := pos + n;
      var early: bool := *;
      err := if pos == |data| && early then Some(end) else None;
    }
  }

  class VerifyReader {
    const source: Source
    const digest: string
    const hash: Hash
    const size: int
    /** What the limited reader still lets through. */
    var remaining: int
    /** What has passed on to the digest verifier. */
    var hashed: seq<Byte>
    var verified: bool
    var err: Option<Error>
    /** What has been handed out. */
    ghost var delivered: seq<Byte>
    /** Where in its data the source was when reading began. */
    ghost const start: nat

    ghost predicate Valid()
      reads this, source
    {
      && source.Valid() && start <= source.pos
      && hashed == source.data[start..source.pos]
      && |delivered| <= |hashed| && delivered == hashed[..|delivered|]
      && remaining == size - |delivered| && (size >= 0 ==> remaining >= 0) && (size < 0 ==> delivered == [])
      && (verified ==> Matches() && err == Some(EOF))
      && (err.None? ==> hashed == delivered)
      && (err == Some(EOF) ==> hashed == delivered && remaining <= 0)
      && err != Some(EarlyVerify) && err != Some(InvalidSize)
    }

    /** All of the stream was handed out, and it has the size and the digest of the descriptor. */
    ghost predicate Matches()
      reads this, source
    {
      && start <= |source.data| && delivered == source.data[start..] && !source.broken
      && |delivered| == (if size < 0 then 0 else size) && hash(delivered) == digest
    }

    /** A failure that is not just a Verify call made too early. */
    ghost predicate HasFailed()
      reads this
    {
      err.Some? && err.value != EOF
    }

    constructor (source: Source, size: int, digest: string, hash: Hash)
      requires source.Valid()
      ensures Valid() && this.source == source && this.size == size && this.digest == digest && this.hash == hash
      ensures start == source.pos && delivered == [] && err.None? && !verified
    {
      this.source, this.size, this.digest, this.hash := source, size, digest, hash;
      remaining, hashed, verified, err, delivered, start := size, [], false, None, [], source.pos;
    }

    /** Reads up to `limit` bytes.  Once it has failed it fails for ever, in the same way. */
    method Read(limit: nat) returns (chunk: seq<Byte>, failure: Option<Error>)
      requires Valid()
      modifies this, source
      ensures Valid() && delivered == old(delivered) + chunk && |chunk| <= limit
      ensures hashed == old(hashed) + chunk
      ensures failure == err && (verified <==> old(verified))
      ensures old(err).Some? ==> chunk == [] && err == old(err) && remaining == old(remaining)
      ensures err.None? && limit > 0 ==> chunk != []
      ensures old(err).None? && err.Some? ==>
                || (err == Some(EOF) && remaining <= 0)
                || (err == Some(UnexpectedEOF) && remaining > 0 && source.pos == |source.data| && !source.broken)
                || (err == Some(Fault) && source.pos == |source.data| && source.broken)
    {
      if err.Some? {
        return [], err;
      }
      if remaining <= 0 {
        chunk, failure := [], Some(EOF);
      } else {
        chunk, failure := source.Read(if limit < remaining then limit else remaining);
        remaining := remaining - |chunk|;
        hashed := hashed + chunk;
        delivered := delivered + chunk;
      }
      if failure.Some? {
        if failure.value == EOF && remaining > 0 {
          failure := Some(UnexpectedEOF);
        }
        err := failure;
      }
    }

    /** ensureEOF: reads one byte more, which also reaches the verifier; anything but a clean end is trailing data. */
    method EnsureEOF() returns (ok: bool)
      requires Valid() && hashed == delivered
      modifies source, this`hashed
      ensures source.Valid() && start <= source.pos && hashed == source.data[start..source.pos] && old(hashed) <= hashed
      ensures ok <==> old(source.pos) == |source.data| && !source.broken
      ensures ok ==> hashed == old(hashed) && source.pos == old(source.pos)
    {
      var peek, e := source.Read(1);
      hashed := hashed + peek;
      ok := peek == [] && e == Some(EOF);
    }

    /** Succeeds exactly if all of a matching stream was handed out; too early a call changes nothing. */
    method Verify() returns (failure: Option<Error>)
      requires Valid()
      modifies this, source
      ensures Valid() && delivered == old(delivered)
      ensures failure.None? <==> Matches() && !old(HasFailed())
      ensures failure.None? <==> verified
      ensures old(HasFailed()) ==> failure == old(err) && err == old(err) && remaining == old(remaining) && hashed == old(hashed)
      ensures failure == Some(EarlyVerify) <==> old(err).None? && remaining > 0
      ensures failure.Some? && failure.value != EarlyVerify ==> HasFailed() && err == failure
      ensures failure == Some(EarlyVerify) ==> err == old(err) && hashed == old(hashed)
      ensures remaining <= 0 && !old(HasFailed()) && !(old(source.pos) == |source.data| && !source.broken) ==> failure == Some(TrailingData)
      ensures remaining <= 0 && !old(HasFailed()) && old(source.pos) == |source.data| && !source.broken && hash(delivered) != digest ==>
                failure == Some(MismatchedDigest)
    {
      if verified {
        return None;
      }
      if err.None? {
        if remaining > 0 {
          return Some(EarlyVerify);
        }
      } else if err.value != EOF {
        return err;
      }
      var ok := EnsureEOF();
      if !ok {
        err := Some(TrailingData);
        return err;
      }
      if hash(hashed) != digest {
        err := Some(MismatchedDigest);
        return err;
      }
      verified := true;
      err := Some(EOF);
      failure := None;
    }
  }

  /** A negative size lets an empty stream pass, if the digest is that of nothing. */
  method NegativeSizePasses(size: int, hash: Hash) returns (failure: Option<Error>)
    requires size < 0
    ensures failure.None?
  {
    var source := new Source([], false);
    var reader := new VerifyReader(source, size, hash([]), hash);
    failure := reader.Verify();
  }

  /** What ReadAll makes of a stream that does not break. */
  function Outcome(stream: seq<Byte>, size: int, digest: string, hash: Hash): Result {
    if size < 0 then Failed(InvalidSize)
    else if |stream| < size then Failed(UnexpectedEOF)
    else if |stream| > size then Failed(TrailingData)
    else if hash(stream) != digest then Failed(MismatchedDigest)
    else Content(stream)
  }

  /** io.ReadFull on a new VerifyReader: fills the buffer unless the stream ends first. */
  method ReadFull(vr: VerifyReader, buf: array<Byte>) returns (failure: Option<Error>)
    requires vr.Valid() && vr.err.None? && vr.delivered == [] && vr.size == buf.Length && !vr.verified
    modifies vr, vr.source, buf
    ensures vr.Valid() && !vr.verified && vr.hashed == vr.delivered
    ensures failure.None? ==> buf[..] == vr.delivered && (vr.HasFailed() ==> vr.err == Some(Fault) && vr.source.broken)
    ensures failure.Some? ==> vr.source.pos == |vr.source.data| && |vr.delivered| < vr.size
    ensures failure.Some? ==> failure == Some(if vr.source.broken then Fault else UnexpectedEOF)
  {
    var n := 0;
    failure := None;
    while n < buf.Length && failure.None?
      invariant vr.Valid() && !vr.verified && failure == vr.err
      invariant n == |vr.delivered| <= buf.Length && buf[..n] == vr.delivered && vr.hashed == vr.delivered
      invariant vr.HasFailed() ==>
                  || (failure == Some(UnexpectedEOF) && vr.remaining > 0 && vr.source.pos == |vr.source.data| && !vr.source.broken)
                  || (failure == Some(Fault) && vr.source.pos == |vr.source.data| && vr.source.broken)
      decreases buf.Length - n, failure.None?
    {
      ghost var before := vr.delivered;
      var chunk;
      chunk, failure := vr.Read(buf.Length - n);
      Fill(buf, n, chunk);
      n := n + |chunk|;
    }
    if n == buf.Length {
      assert buf[..n] == buf[..];
      failure := None;
    }
  }

  method Fill(buf: array<Byte>, n: nat, chunk: seq<Byte>)
    requires n + |chunk| <= buf.Length
    modifies buf
    ensures buf[..n + |chunk|] == old(buf[..n]) + chunk
  {
    for i := 0 to |chunk|
      invariant buf[..n + i] == old(buf[..n]) + chunk[..i]
    {
      buf[n + i] := chunk[i];
    }
  }

  /** Succeeds exactly on streams of the right size and digest, however they are chunked, and returns all of the stream. */
  method ReadAll(source: Source, size: int, digest: string, hash: Hash) returns (result: Result)
    requires source.Valid()
    modifies source
    ensures !source.broken ==> result == Outcome(old(source.Left()), size, digest, hash)
    ensures source.broken ==> result.Failed?
  {
    if size < 0 {
      return Failed(InvalidSize);
    }
    var buf := new Byte[size];
    var vr := new VerifyReader(source, size, digest, hash);
    var failure := ReadFull(vr, buf);
    if failure.Some? {
      return Failed(failure.value);
    }
    ghost var stream := source.data[vr.start..];
    assert |vr.delivered| == size && vr.delivered == stream[..size];
    assert source.pos == |source.data| <==> |stream| == size;
    assert |stream| == size ==> vr.delivered == stream;
    failure := vr.Verify();
    if failure.Some? {
      return Failed(failure.value);
    }
    return Content(buf[..]);
  }
}
